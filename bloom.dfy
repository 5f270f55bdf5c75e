/**
 * The service membership filter of a miner record, seen as a bounded set of file
 * hashes. Its own `insert`/`delete` are not part of this model: an insertion fails
 * when a new hash would exceed the filter's capacity, a deletion fails when the hash
 * is not a member; both failures surface as `BloomElemPushError`.
 */
module ServiceBloom {
  import opened SminerTypes

  /** The hashes named in a list. */
  function Elems(hs: seq<FileHash>): (r: set<FileHash>) {
    set h | h in hs
  }

  /** No hash occurs twice in the list. */
  predicate Distinct(hs: seq<FileHash>) {
    forall i, j :: 0 <= i < j < |hs| ==> hs[i] != hs[j]
  }

  /** One insertion into the filter. */
  function Insert(f: BloomFilter, h: FileHash): (r: Result<BloomFilter>)
    ensures r.Ok? <==> h in f.members || |f.members| < f.capacity
    ensures r.Ok? ==> r.value.members == f.members + {h} && r.value.capacity == f.capacity
    ensures r.Err? ==> r.error == BloomElemPushError
  {
    if h in f.members then Ok(f)
    else if |f.members| < f.capacity then Ok(f.(members := f.members + {h}))
    else Err(BloomElemPushError)
  }

  /** One deletion from the filter. */
  function Delete(f: BloomFilter, h: FileHash): (r: Result<BloomFilter>)
    ensures r.Ok? <==> h in f.members
    ensures r.Ok? ==> r.value.members == f.members - {h} && r.value.capacity == f.capacity
    ensures r.Err? ==> r.error == BloomElemPushError
  {
    if h in f.members then Ok(f.(members := f.members - {h})) else Err(BloomElemPushError)
  }

  /** The loop of `insert_service_bloom`: insert each hash in order, stop at the first failure. */
  function InsertAll(f: BloomFilter, hs: seq<FileHash>): (r: Result<BloomFilter>)
    decreases |hs|
  {
    if hs == [] then Ok(f)
    else match Insert(f, hs[0])
      case Err(e) => Err(e)
      case Ok(f') => InsertAll(f', hs[1..])
  }

  /** The loop of `delete_service_bloom`: delete each hash in order, stop at the first failure. */
  function DeleteAll(f: BloomFilter, hs: seq<FileHash>): (r: Result<BloomFilter>)
    decreases |hs|
  {
    if hs == [] then Ok(f)
    else match Delete(f, hs[0])
      case Err(e) => Err(e)
      case Ok(f') => DeleteAll(f', hs[1..])
  }

  lemma {:induction false} SubsetCard(a: set<FileHash>, b: set<FileHash>)
    requires a <= b
    ensures |a| <= |b|
    decreases b
  {
    if a != {} {
      var x :| x in a;
      SubsetCard(a - {x}, b - {x});
    }
  }

  lemma ElemsCons(hs: seq<FileHash>)
    requires hs != []
    ensures Elems(hs) == {hs[0]} + Elems(hs[1..])
  {
    assert hs == [hs[0]] + hs[1..];
  }

  /**
   * A successful insertion loop adds exactly the listed hashes; it succeeds whenever the
   * union fits in the capacity; its only failure is `BloomElemPushError`.
   */
  lemma {:induction false} InsertAllSpec(f: BloomFilter, hs: seq<FileHash>)
    ensures InsertAll(f, hs).Ok? ==>
      InsertAll(f, hs).value == f.(members := f.members + Elems(hs))
    ensures |f.members + Elems(hs)| <= f.capacity ==> InsertAll(f, hs).Ok?
    ensures InsertAll(f, hs).Err? ==> InsertAll(f, hs).error == BloomElemPushError
    decreases |hs|
  {
    if hs != [] {
      ElemsCons(hs);
      var h := hs[0];
      if |f.members + Elems(hs)| <= f.capacity && h !in f.members {
        SubsetCard(f.members + {h}, f.members + Elems(hs));
      }
      var r := Insert(f, h);
      if r.Ok? {
        InsertAllSpec(r.value, hs[1..]);
        assert r.value.members + Elems(hs[1..]) == f.members + Elems(hs);
      }
    }
  }

  /**
   * The deletion loop succeeds exactly when the hashes are distinct members of the
   * filter, and then removes exactly them.
   */
  lemma {:induction false} DeleteAllSpec(f: BloomFilter, hs: seq<FileHash>)
    ensures DeleteAll(f, hs).Ok? <==> Distinct(hs) && Elems(hs) <= f.members
    ensures DeleteAll(f, hs).Ok? ==>
      DeleteAll(f, hs).value == f.(members := f.members - Elems(hs))
    ensures DeleteAll(f, hs).Err? ==> DeleteAll(f, hs).error == BloomElemPushError
    decreases |hs|
  {
    if hs != [] {
      ElemsCons(hs);
      var h := hs[0];
      var r := Delete(f, h);
      if r.Ok? {
        DeleteAllSpec(r.value, hs[1..]);
        assert r.value.members - Elems(hs[1..]) == f.members - Elems(hs);
        if Distinct(hs) && Elems(hs) <= f.members {
          assert Distinct(hs[1..]);
          forall x | x in Elems(hs[1..]) ensures x in r.value.members {
            var k :| 0 <= k < |hs[1..]| && hs[1..][k] == x;
            assert hs[k + 1] == x;
          }
        }
        if Distinct(hs[1..]) && Elems(hs[1..]) <= r.value.members {
          forall i, j | 0 <= i < j < |hs| ensures hs[i] != hs[j] {
            if i > 0 {
              assert hs[1..][i - 1] == hs[i] && hs[1..][j - 1] == hs[j];
            } else {
              assert hs[j] == hs[1..][j - 1];
              assert hs[j] in Elems(hs[1..]);
            }
          }
        }
      } else {
        assert h !in f.members;
      }
    }
  }
}
