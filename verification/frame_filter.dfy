/**
 * The filter rules of one option category (widths or themes) of the frames
 * panel: when a visible-option list counts as an applied filter, when a single
 * checkbox is checked, and the list a checkbox change produces.
 * Generic over the option type: the panel uses it for numeric widths and for
 * theme names.
 */
module FrameFilter {

  // ---------------------------------------------------------------------------
  // Activity and selection
  // ---------------------------------------------------------------------------

  /**
   * A visible list counts as an applied filter only when it is non-empty and
   * not longer than the available list. Only the lengths are compared; whether
   * the visible entries occur among the available ones is not looked at.
   */
  predicate IsActive<T>(available: seq<T>, visible: seq<T>)
    ensures IsActive(available, visible) ==> visible != [] && available != []
    ensures |visible| > |available| ==> !IsActive(available, visible)
  {
    0 < |visible| <= |available|
  }

  /** A checkbox is checked only while the filter is active and its option is visible. */
  predicate IsSelected<T(==)>(option: T, available: seq<T>, visible: seq<T>)
    ensures IsSelected(option, available, visible) ==> option in visible && 0 < |visible| <= |available|
    ensures option !in visible ==> !IsSelected(option, available, visible)
  {
    IsActive(available, visible) && option in visible
  }

  /** An empty visible list, and any list against an empty available list, is never a filter. */
  lemma InactiveWhenEmpty<T>(available: seq<T>, visible: seq<T>)
    ensures !IsActive(available, [])
    ensures !IsActive([], visible)
  {
  }

  /**
   * A visible list longer than the available list is ignored, even when every
   * one of its entries is available: no option reports selected.
   */
  lemma OversizedSelectsNothing<T>(available: seq<T>, visible: seq<T>, option: T)
    requires |visible| > |available|
    ensures !IsActive(available, visible)
    ensures !IsSelected(option, available, visible)
  {
  }

  /** Activity depends on the two lengths only, never on the entries. */
  lemma ActivityIgnoresEntries<T>(available: seq<T>, visible: seq<T>, other: seq<T>)
    requires |visible| == |other|
    ensures IsActive(available, visible) <==> IsActive(available, other)
  {
  }

  /** While the filter is inactive every option reports unselected; while it is active, exactly the visible ones do. */
  lemma SelectionFollowsActivity<T>(available: seq<T>, visible: seq<T>, option: T)
    ensures !IsActive(available, visible) ==> !IsSelected(option, available, visible)
    ensures IsActive(available, visible) ==> (IsSelected(option, available, visible) <==> option in visible)
  {
  }

  // ---------------------------------------------------------------------------
  // Toggle transitions
  // ---------------------------------------------------------------------------

  /**
   * `r` arises from `s` by deleting some of its elements: the elements of `r`
   * occur in `s` in the same relative order.
   */
  predicate IsSubsequence<T(==)>(r: seq<T>, s: seq<T>)
    decreases |s|
  {
    if r == [] then true
    else if s == [] then false
    else (r[0] == s[0] && IsSubsequence(r[1..], s[1..])) || IsSubsequence(r, s[1..])
  }

  /** Checking a box appends its option to the end of the visible list, without de-duplication. */
  function ToggleOn<T>(visible: seq<T>, option: T): (r: seq<T>)
    ensures |r| == |visible| + 1
    ensures visible <= r && r[|visible|] == option
    ensures multiset(r) == multiset(visible) + multiset{option}
  {
    visible + [option]
  }

  /**
   * Unchecking a box removes every occurrence of its option and keeps the other
   * entries, with their multiplicities, in their order.
   */
  function RemoveAll<T(==)>(s: seq<T>, x: T): (r: seq<T>)
    ensures x !in r
    ensures multiset(r) == multiset(s)[x := 0]
    ensures IsSubsequence(r, s)
    ensures |r| <= |s|
  {
    if s == [] then []
    else
      assert s == [s[0]] + s[1..];
      var rest := RemoveAll(s[1..], x);
      if s[0] == x then rest
      else
        assert ([s[0]] + rest)[1..] == rest;
        [s[0]] + rest
  }

  /** The list a checkbox change hands on: append when checked, remove every occurrence when unchecked. */
  function Toggle<T(==)>(visible: seq<T>, option: T, checked: bool): (r: seq<T>)
    ensures checked ==> option in r && |r| == |visible| + 1
    ensures !checked ==> option !in r && |r| <= |visible|
    ensures multiset(r)[option := 0] == multiset(visible)[option := 0]
    ensures checked ==> visible <= r && r[|visible|] == option
    ensures !checked ==> IsSubsequence(r, visible)
  {
    if checked then ToggleOn(visible, option) else RemoveAll(visible, option)
  }

  // ---------------------------------------------------------------------------
  // Properties of the transitions
  // ---------------------------------------------------------------------------

  /** A subsequence never holds an element more often than the sequence it comes from. */
  lemma {:induction false} SubsequenceMultiset<T>(r: seq<T>, s: seq<T>)
    requires IsSubsequence(r, s)
    ensures multiset(r) <= multiset(s)
    decreases |s|
  {
    if r != [] {
      assert s == [s[0]] + s[1..];
      if r[0] == s[0] && IsSubsequence(r[1..], s[1..]) {
        SubsequenceMultiset(r[1..], s[1..]);
        assert r == [r[0]] + r[1..];
      } else {
        SubsequenceMultiset(r, s[1..]);
      }
    }
  }

  /**
   * Removing every occurrence is the only way to delete elements of `s` so that
   * exactly the occurrences of `x` disappear: any such list equals `RemoveAll(s, x)`.
   */
  lemma {:induction false} RemoveAllUnique<T>(s: seq<T>, x: T, r: seq<T>)
    requires IsSubsequence(r, s)
    requires multiset(r) == multiset(s)[x := 0]
    ensures r == RemoveAll(s, x)
    decreases |s|
  {
    if s == [] {
      assert r == [];
    } else {
      var a := s[0];
      assert s == [a] + s[1..];
      if a == x {
        assert multiset(s[1..])[x := 0] == multiset(s)[x := 0];
        if r != [] {
          assert r[0] in multiset(r);
          assert IsSubsequence(r, s[1..]);
        }
        RemoveAllUnique(s[1..], x, r);
      } else {
        assert multiset(r)[a] == multiset(s)[a] == multiset(s[1..])[a] + 1;
        assert r != [];
        if !(r[0] == a && IsSubsequence(r[1..], s[1..])) {
          SubsequenceMultiset(r, s[1..]);
          assert false;
        }
        assert r == [a] + r[1..];
        var mr, ms := multiset(r[1..]), multiset(s[1..]);
        assert multiset(r) == multiset{a} + mr;
        assert multiset(s) == multiset{a} + ms;
        forall y ensures mr[y] == ms[x := 0][y] {
          assert multiset(r)[y] == multiset(s)[x := 0][y];
        }
        assert mr == ms[x := 0];
        RemoveAllUnique(s[1..], x, r[1..]);
      }
    }
  }

  /** After unchecking, exactly the other options that were visible remain visible. */
  lemma RemoveAllMembership<T>(s: seq<T>, x: T)
    ensures forall y :: y in RemoveAll(s, x) <==> y in s && y != x
  {
  }

  /** Removing an option that is not in the list leaves the list as it was. */
  lemma {:induction false} RemoveAllAbsent<T>(s: seq<T>, x: T)
    requires x !in s
    ensures RemoveAll(s, x) == s
  {
    if s != [] {
      assert s[0] != x;
      RemoveAllAbsent(s[1..], x);
      assert s == [s[0]] + s[1..];
    }
  }

  /** Unchecking twice is the same as unchecking once. */
  lemma ToggleOffIdempotent<T>(s: seq<T>, x: T)
    ensures RemoveAll(RemoveAll(s, x), x) == RemoveAll(s, x)
  {
    RemoveAllAbsent(RemoveAll(s, x), x);
  }

  /** Removing every occurrence from a concatenation removes it from both halves. */
  lemma {:induction false} RemoveAllAppend<T>(s: seq<T>, t: seq<T>, x: T)
    ensures RemoveAll(s + t, x) == RemoveAll(s, x) + RemoveAll(t, x)
  {
    if s != [] {
      assert (s + t)[0] == s[0];
      assert (s + t)[1..] == s[1..] + t;
      RemoveAllAppend(s[1..], t, x);
    } else {
      assert s + t == t;
    }
  }

  /**
   * Checking and then unchecking an option is the same as only unchecking it;
   * when the option was not visible before, the list is restored exactly.
   */
  lemma ToggleOnThenOff<T>(visible: seq<T>, option: T)
    ensures RemoveAll(ToggleOn(visible, option), option) == RemoveAll(visible, option)
    ensures option !in visible <==> RemoveAll(ToggleOn(visible, option), option) == visible
  {
    RemoveAllAppend(visible, [option], option);
    assert RemoveAll([option], option) == [];
    assert RemoveAll(visible, option) + [] == RemoveAll(visible, option);
    if option !in visible {
      RemoveAllAbsent(visible, option);
    }
  }

  /** Checking an option that is already visible adds a second copy of it. */
  lemma ToggleOnDuplicates<T>(visible: seq<T>, option: T)
    requires option in visible
    ensures multiset(ToggleOn(visible, option))[option] >= 2
    ensures |ToggleOn(visible, option)| == |visible| + 1
  {
  }

  /**
   * After a box is checked its option is selected exactly when the grown list
   * still fits within the available list; after it is unchecked it is never
   * selected, and every other option is selected exactly when the shortened list
   * is still an active filter containing it.
   */
  lemma SelectionAfterToggle<T>(available: seq<T>, visible: seq<T>, option: T, other: T)
    requires other != option
    ensures IsSelected(option, available, Toggle(visible, option, true)) <==> |visible| < |available|
    ensures !IsSelected(option, available, Toggle(visible, option, false))
    ensures IsSelected(other, available, Toggle(visible, option, false))
        <==> IsActive(available, RemoveAll(visible, option)) && other in visible
  {
    var r := RemoveAll(visible, option);
    assert multiset(r)[other] == multiset(visible)[other];
  }
}
