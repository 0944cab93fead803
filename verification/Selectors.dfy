/** Which stored blocks a decode step reads. */
module Selectors {
  import opened Bytes
  import opened Indexing

  datatype Selector = AllBlocks | RecentSink(sink: int, recent: int)

  datatype SelectError = NegativeCount

  /** `list(dict.fromkeys(s))` */
  function Dedup(s: seq<nat>): (d: seq<nat>) {
    if s == [] then []
    else
      var init, last := s[..|s| - 1], s[|s| - 1];
      if last in init then Dedup(init) else Dedup(init) + [last]
  }

  /** s[:count] */
  function Prefix(s: seq<nat>, count: nat): seq<nat> {
    if count <= |s| then s[..count] else s
  }

  /** s[-count:] for a positive count. */
  function Suffix(s: seq<nat>, count: nat): seq<nat> {
    if count <= |s| then s[|s| - count..] else s
  }

  function Select(selector: Selector, available: seq<nat>): Result<seq<nat>, SelectError> {
    match selector
    case AllBlocks => Ok(available)
    case RecentSink(sink, recent) =>
      if sink < 0 || recent < 0 then Err(NegativeCount)
      else Ok(Dedup(Prefix(available, sink) + if recent > 0 then Suffix(available, recent) else []))
  }

  // ----- dedup keeps the first occurrence of everything, in order

  function FirstIndex(s: seq<nat>, x: nat): (i: nat)
    requires x in s
    ensures i < |s| && s[i] == x && x !in s[..i]
  {
    var n := |s| - 1;
    if x in s[..n] then
      var i := FirstIndex(s[..n], x);
      assert s[..n][..i] == s[..i];
      i
    else n
  }

  lemma {:induction false} DedupKeepsFirsts(s: seq<nat>)
    ensures Distinct(Dedup(s))
    ensures forall x :: x in Dedup(s) <==> x in s
    ensures forall i, j :: 0 <= i < j < |Dedup(s)| ==> FirstIndex(s, Dedup(s)[i]) < FirstIndex(s, Dedup(s)[j])
  {
    if s != [] {
      DedupKeepsFirsts(s[..|s| - 1]);
    }
  }

  lemma {:induction false} DedupDistinct(s: seq<nat>)
    requires Distinct(s)
    ensures Dedup(s) == s
  {
    if s != [] {
      DedupDistinct(s[..|s| - 1]);
    }
  }

  /** Elements already seen do not come again. */
  lemma {:induction false} DedupOverlap(s: seq<nat>, t: seq<nat>)
    requires Distinct(s) && forall i :: 0 <= i < |t| ==> t[i] in s
    ensures Dedup(s + t) == s
  {
    if t == [] {
      assert s + t == s;
      DedupDistinct(s);
    } else {
      var u := s + t;
      assert u[..|u| - 1] == s + t[..|t| - 1];
      DedupOverlap(s, t[..|t| - 1]);
    }
  }

  /** Elements not seen before are kept. */
  lemma {:induction false} DedupFresh(s: seq<nat>, t: seq<nat>)
    requires Distinct(t) && forall i :: 0 <= i < |t| ==> t[i] !in s
    ensures Dedup(s + t) == Dedup(s) + t
  {
    if t == [] {
      assert s + t == s;
    } else {
      var u, init := s + t, t[..|t| - 1];
      assert u[..|u| - 1] == s + init;
      DedupFresh(s, init);
      assert t[|t| - 1] !in init;
    }
  }

  /** An overlapping suffix adds what lies past the prefix. */
  lemma DedupMeeting(s: seq<nat>, sink: nat, start: nat)
    requires Distinct(s) && start <= sink <= |s|
    ensures Dedup(s[..sink] + s[start..]) == s
  {
    var seen, again, rest := s[..sink], s[start..sink], s[sink..];
    assert s[start..] == again + rest;
    assert seen + (again + rest) == (seen + again) + rest;
    forall i | 0 <= i < |again|
      ensures again[i] in seen
    {
      assert again[i] == seen[start + i];
    }
    DedupOverlap(seen, again);
    DedupFresh(seen + again, rest);
    assert seen + rest == s;
  }

  /** With distinct blocks: everything when prefix and suffix meet, otherwise the prefix and the suffix. */
  lemma SinkAndRecent(sink: nat, recent: nat, available: seq<nat>)
    requires Distinct(available)
    ensures Select(RecentSink(sink, recent), available)
         == Ok(if |available| <= sink + recent then available else available[..sink] + available[|available| - recent..])
  {
    hide Dedup;
    var n := |available|;
    var p, start := if sink <= n then sink else n, if recent <= n then n - recent else 0;
    assert Prefix(available, sink) == available[..p];
    assert (if recent > 0 then Suffix(available, recent) else []) == available[start..];
    if start <= p {
      DedupMeeting(available, p, start);
    } else {
      DedupDistinct(available[..p] + available[start..]);
    }
  }

  /** A selector fails for negative counts and selects nothing only from nothing or with both counts zero. */
  lemma SelectsNothingIff(selector: Selector, available: seq<nat>)
    ensures Select(selector, available).Err? <==> selector.RecentSink? && (selector.sink < 0 || selector.recent < 0)
    ensures Select(selector, available) == Ok([]) <==>
              || (selector.AllBlocks? && available == [])
              || (selector.RecentSink? && selector.sink >= 0 && selector.recent >= 0
                  && (available == [] || (selector.sink == 0 && selector.recent == 0)))
  {
    if selector.RecentSink? && selector.sink >= 0 && selector.recent >= 0 {
      var chosen := Prefix(available, selector.sink) + if selector.recent > 0 then Suffix(available, selector.recent) else [];
      DedupKeepsFirsts(chosen);
      if chosen != [] {
        assert chosen[0] in Dedup(chosen);
      }
    }
  }

  /** Whatever is selected was available. */
  lemma SelectsAvailable(selector: Selector, available: seq<nat>)
    requires Select(selector, available).Ok?
    ensures forall x :: x in Select(selector, available).value ==> x in available
  {
    if selector.RecentSink? {
      DedupKeepsFirsts(Prefix(available, selector.sink) + if selector.recent > 0 then Suffix(available, selector.recent) else []);
    }
  }
}
