/** The `AllMiner` registry: an ordered list of active miner accounts. */
module MinerList {
  import opened SminerTypes

  /** The list with every occurrence of `a` removed, the others kept in order. */
  function Without(s: seq<AccountId>, a: AccountId): (r: seq<AccountId>)
    ensures a !in r
    ensures forall x :: x in r <==> x in s && x != a
    ensures |r| <= |s|
    ensures a !in s ==> r == s
    decreases |s|
  {
    if s == [] then []
    else (if s[0] == a then [] else [s[0]]) + Without(s[1..], a)
  }

  /** Peeling the head of the unfiltered rest off into the kept prefix. */
  lemma WithoutStep(kept: seq<AccountId>, s: seq<AccountId>, a: AccountId)
    requires s != []
    ensures kept + Without(s, a) == (if s[0] == a then kept else kept + [s[0]]) + Without(s[1..], a)
  {
    var rest := Without(s[1..], a);
    if s[0] != a {
      assert Without(s, a) == [s[0]] + rest;
      assert kept + ([s[0]] + rest) == (kept + [s[0]]) + rest;
    } else {
      assert Without(s, a) == rest;
    }
  }

  /** `Vec::retain(|s| s != acc)` as `force_miner_exit` applies it to `AllMiner`. */
  method Retain(list: seq<AccountId>, acc: AccountId) returns (kept: seq<AccountId>)
    ensures kept == Without(list, acc)
  {
    kept := [];
    var i := 0;
    while i < |list|
      invariant 0 <= i <= |list|
      invariant kept + Without(list[i..], acc) == Without(list, acc)
    {
      WithoutStep(kept, list[i..], acc);
      assert list[i..][1..] == list[i + 1..];
      if list[i] != acc {
        kept := kept + [list[i]];
      }
      i := i + 1;
    }
  }
}
