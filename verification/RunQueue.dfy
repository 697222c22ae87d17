/** What a run list is, as a sequence: the meaning of the operations of context_queue. */
module RunQueue {
  import opened Basics

  predicate NeedsPost<T>(list: seq<T>) { list == [] }

  function Half<T>(list: seq<T>): nat { |list| / 2 }

  function StolenPart<T>(list: seq<T>): seq<T> { list[..Half(list)] }

  function KeptPart<T>(list: seq<T>): seq<T> { list[Half(list)..] }

  // Cutting a list in two loses nothing and shares nothing.
  lemma SplitDistinct<T>(s: seq<T>, k: nat)
    requires k <= |s| && Distinct(s)
    ensures Distinct(s[..k]) && Distinct(s[k..])
    ensures forall x :: x in s <==> x in s[..k] || x in s[k..]
    ensures forall x :: !(x in s[..k] && x in s[k..])
  {
    assert s == s[..k] + s[k..];
    assert forall i, j :: 0 <= i < k && 0 <= j < |s| - k ==> s[..k][i] != s[k..][j];
  }

  lemma JoinDistinct<T>(s: seq<T>, t: seq<T>)
    requires Distinct(s) && Distinct(t) && forall x :: !(x in s && x in t)
    ensures Distinct(s + t)
  {
    forall i, j | 0 <= i < j < |s + t| ensures (s + t)[i] != (s + t)[j] {
      assert (s + t)[i] in (if i < |s| then s else t);
      assert (s + t)[j] in (if j < |s| then s else t);
    }
  }
}
