/**
 Two erasure codes that meet the law `FecShards.Lawful`: the hypothesis about the
 foreign Reed-Solomon library can be satisfied.
 */
module ErasureCodes {
  import opened Words
  import opened FecShards
  import opened FecTheorems

  // ----- Repetition: one data shard, any amount of parity -----

  function FirstPresent(have: map<int, Bytes>, i: nat, n: nat): Option<seq<Bytes>>
    decreases n - i
  {
    if i >= n then None
    else if i in have then Some([have[i]])
    else FirstPresent(have, i + 1, n)
  }

  function Copies(k: nat, m: nat, data: seq<Bytes>): seq<Bytes> {
    if |data| == 0 then [] else seq(m, _ => data[0])
  }

  function AnyCopy(k: nat, m: nat, have: map<int, Bytes>): Option<seq<Bytes>> {
    FirstPresent(have, 0, k + m)
  }

  lemma {:induction false} FirstPresentFinds(have: map<int, Bytes>, i: nat, n: nat, s: Bytes)
    requires have != map[] && forall j :: j in have ==> i <= j < n && have[j] == s
    ensures FirstPresent(have, i, n) == Some([s])
    decreases n - i
  {
    if forall j :: j !in have {
      assert false;
    }
    if i !in have {
      FirstPresentFinds(have, i + 1, n, s);
    }
  }

  lemma AnyCopyRepairs(m: nat, data: seq<Bytes>, have: map<int, Bytes>)
    requires |data| == 1 && |have| >= 1 && Shards(data, Copies(1, m, data), have)
    ensures AnyCopy(1, m, have) == Some(data)
  {
    var code := data + Copies(1, m, data);
    assert forall i :: 0 <= i < |code| ==> code[i] == data[0];
    FirstPresentFinds(have, 0, 1 + m, data[0]);
    assert data == [data[0]];
  }

  lemma RepetitionIsLawful(m: nat)
    ensures Lawful(Codec(Copies, AnyCopy), 1, m)
  {
    forall data: seq<Bytes>, len: nat, have: map<int, Bytes>
      | |data| == 1 && Uniform(data, len) && len > 0 && |have| >= 1 && Shards(data, Copies(1, m, data), have)
      ensures AnyCopy(1, m, have) == Some(data)
    {
      AnyCopyRepairs(m, data, have);
    }
  }

  // ----- Sums: any number of data shards, one parity shard -----

  /** The sum of byte `j` over the first `n` data shards at hand. */
  function ColumnSum(have: map<int, Bytes>, n: nat, j: nat): int {
    if n == 0 then 0
    else ColumnSum(have, n - 1, j) + (if n - 1 in have && j < |have[n - 1]| then have[n - 1][j] else 0)
  }

  function AsMap(data: seq<Bytes>): map<int, Bytes> {
    map i | 0 <= i < |data| :: data[i]
  }

  function SumParity(k: nat, m: nat, data: seq<Bytes>): seq<Bytes> {
    if data == [] then seq(m, _ => [])
    else seq(m, _ => seq(|data[0]|, j requires 0 <= j < |data[0]| => ColumnSum(AsMap(data), |data|, j) % 256))
  }

  /** The one missing data shard is the parity minus the others. */
  function SumRepair(k: nat, m: nat, have: map<int, Bytes>): Option<seq<Bytes>> {
    Some(seq(k, i requires 0 <= i < k =>
      if i in have then have[i]
      else if k in have then
        seq(|have[k]|, j requires 0 <= j < |have[k]| => (have[k][j] - ColumnSum(have, k, j)) % 256)
      else []))
  }

  lemma {:induction false} ColumnSumMissing(data: seq<Bytes>, have: map<int, Bytes>, n: nat, i: nat, j: nat)
    requires n <= |data| && i < |data| && j < |data[i]| && i !in have
    requires forall x :: 0 <= x < |data| && x != i ==> x in have && have[x] == data[x]
    ensures ColumnSum(AsMap(data), n, j) == ColumnSum(have, n, j) + (if i < n then data[i][j] else 0)
  {
    if n > 0 {
      ColumnSumMissing(data, have, n - 1, i, j);
    }
  }

  // With k of k + 1 shards at most one is missing.
  lemma OneMissing(have: map<int, Bytes>, k: nat, i: nat, x: nat)
    requires |have| >= k && i <= k && x <= k && i != x && i !in have
    requires forall y :: y in have ==> 0 <= y < k + 1
    ensures x in have
  {
    if x !in have {
      var others := Below(k + 1) - {i} - {x};
      assert |others| == k - 1;
      SubsetSize(have.Keys, others);
    }
  }

  // The missing data shard is computed right.
  lemma SumRestores(k: nat, data: seq<Bytes>, len: nat, have: map<int, Bytes>, i: nat)
    requires |data| == k >= 1 && Uniform(data, len) && |have| >= k && Shards(data, SumParity(k, 1, data), have)
    requires i < k && i !in have
    ensures SumRepair(k, 1, have).value[i] == data[i]
  {
    hide ColumnSum, AsMap;
    var code := data + SumParity(k, 1, data);
    OneMissing(have, k, i, k);
    assert have[k] == code[k] == SumParity(k, 1, data)[0];
    forall x | 0 <= x < k && x != i
      ensures x in have && have[x] == data[x]
    {
      OneMissing(have, k, i, x);
      assert code[x] == data[x];
    }
    var r := SumRepair(k, 1, have).value[i];
    forall j | 0 <= j < len
      ensures r[j] == data[i][j]
    {
      ColumnSumMissing(data, have, k, i, j);
      Difference(ColumnSum(have, k, j), data[i][j]);
    }
    assert r == data[i];
  }

  lemma Difference(sum: int, b: Byte)
    ensures ((sum + b) % 256 - sum) % 256 == b
  {
  }

  lemma SumRepairs(k: nat, data: seq<Bytes>, len: nat, have: map<int, Bytes>)
    requires |data| == k >= 1 && Uniform(data, len) && |have| >= k && Shards(data, SumParity(k, 1, data), have)
    ensures SumRepair(k, 1, have) == Some(data)
  {
    hide SumParity, ColumnSum;
    var code := data + SumParity(k, 1, data);
    var r := SumRepair(k, 1, have).value;
    forall i | 0 <= i < k
      ensures r[i] == data[i]
    {
      if i in have {
        assert code[i] == data[i];
      } else {
        SumRestores(k, data, len, have, i);
      }
    }
    assert r == data;
  }

  lemma SumIsLawful(k: nat)
    requires k >= 1
    ensures Lawful(Codec(SumParity, SumRepair), k, 1)
  {
    hide SumRepair;
    forall data: seq<Bytes>, len: nat, have: map<int, Bytes>
      | |data| == k && Uniform(data, len) && len > 0 && |have| >= k && Shards(data, SumParity(k, 1, data), have)
      ensures SumRepair(k, 1, have) == Some(data)
    {
      SumRepairs(k, data, len, have);
    }
  }
}
