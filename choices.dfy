/**
 * The option buttons of one step, in page order, and what the click
 * handlers compute from them: the exclusive selection of a single-select
 * step, the toggle of a multi-select step, the list of selected values and
 * the path scores of the routing step.
 */
module Choices {
  import opened Steps

  /**
   * One option button: its data-value, data-next and data-path attributes and
   * whether it carries the 'selected' class. A missing data-next behaves like
   * an id no step has; a missing data-path like any tag other than "A" or "B".
   */
  datatype Choice = Choice(value: string, next: StepId, path: string, selected: bool)

  /** How many buttons are selected. */
  function SelectedCount(cs: seq<Choice>): nat
  {
    if cs == [] then 0
    else SelectedCount(cs[..|cs| - 1]) + (if cs[|cs| - 1].selected then 1 else 0)
  }

  /** The data-value of every selected button, in page order. */
  function SelectedValues(cs: seq<Choice>): (vs: seq<string>)
    ensures |vs| == SelectedCount(cs)
  {
    if cs == [] then []
    else SelectedValues(cs[..|cs| - 1]) + (if cs[|cs| - 1].selected then [cs[|cs| - 1].value] else [])
  }

  /** The buttons after a single-select click on button i: only i is selected. */
  function SelectOnly(cs: seq<Choice>, i: nat): (r: seq<Choice>)
    requires i < |cs|
    ensures |r| == |cs|
    ensures forall k :: 0 <= k < |cs| ==> r[k].value == cs[k].value && r[k].next == cs[k].next && r[k].path == cs[k].path
  {
    seq(|cs|, k requires 0 <= k < |cs| => cs[k].(selected := k == i))
  }

  /** The buttons after a multi-select click on button i: i's flag is flipped. */
  function Toggled(cs: seq<Choice>, i: nat): (r: seq<Choice>)
    requires i < |cs|
    ensures |r| == |cs| && r[i].selected == !cs[i].selected && r[i].value == cs[i].value
  {
    cs[i := cs[i].(selected := !cs[i].selected)]
  }

  /** What one button adds to the path scores. */
  function Contribution(c: Choice): Scores
  {
    if !c.selected then Scores(0, 0)
    else if c.path == "A" then Scores(1, 0)
    else if c.path == "B" then Scores(0, 1)
    else Scores(0, 0)
  }

  /** Path scores of the routing step: selected buttons counted by their tag. */
  function Tally(cs: seq<Choice>): (s: Scores)
    ensures s.a + s.b <= SelectedCount(cs)
  {
    if cs == [] then Scores(0, 0)
    else
      var s := Tally(cs[..|cs| - 1]);
      var c := Contribution(cs[|cs| - 1]);
      Scores(s.a + c.a, s.b + c.b)
  }

  lemma {:induction false} SelectedSplit(xs: seq<Choice>, ys: seq<Choice>)
    ensures SelectedCount(xs + ys) == SelectedCount(xs) + SelectedCount(ys)
    ensures SelectedValues(xs + ys) == SelectedValues(xs) + SelectedValues(ys)
    ensures Tally(xs + ys) == Scores(Tally(xs).a + Tally(ys).a, Tally(xs).b + Tally(ys).b)
    decreases |ys|
  {
    if ys == [] {
      assert xs + ys == xs;
    } else {
      var n := |ys| - 1;
      assert (xs + ys)[..|xs + ys| - 1] == xs + ys[..n];
      SelectedSplit(xs, ys[..n]);
    }
  }

  lemma {:induction false} NoneSelected(cs: seq<Choice>)
    requires forall k :: 0 <= k < |cs| ==> !cs[k].selected
    ensures SelectedCount(cs) == 0 && SelectedValues(cs) == []
  {
    if cs != [] {
      NoneSelected(cs[..|cs| - 1]);
    }
  }

  /** The selected count is zero exactly when no button carries 'selected'. */
  lemma {:induction false} CountZeroIffNoneSelected(cs: seq<Choice>)
    ensures SelectedCount(cs) == 0 <==> forall k :: 0 <= k < |cs| ==> !cs[k].selected
  {
    if cs != [] {
      var n := |cs| - 1;
      CountZeroIffNoneSelected(cs[..n]);
      assert forall k :: 0 <= k < n ==> cs[..n][k] == cs[k];
    }
  }

  /** A value is among the selected values exactly when some selected button carries it. */
  lemma {:induction false} SelectedValuesMembers(cs: seq<Choice>, v: string)
    ensures v in SelectedValues(cs) <==> exists k :: 0 <= k < |cs| && cs[k].selected && cs[k].value == v
  {
    if cs != [] {
      var n := |cs| - 1;
      SelectedValuesMembers(cs[..n], v);
      assert forall k :: 0 <= k < n ==> cs[..n][k] == cs[k];
      if v in SelectedValues(cs[..n]) {
        var k :| 0 <= k < n && cs[..n][k].selected && cs[..n][k].value == v;
        assert cs[k].selected && cs[k].value == v;
      }
    }
  }

  /** After a single-select click exactly the clicked button is selected, and its value is the only selected value. */
  lemma SelectOnlyIsExclusive(cs: seq<Choice>, i: nat)
    requires i < |cs|
    ensures |SelectOnly(cs, i)| == |cs|
    ensures forall k :: 0 <= k < |cs| ==> (SelectOnly(cs, i)[k].selected <==> k == i)
    ensures SelectedCount(SelectOnly(cs, i)) == 1
    ensures SelectedValues(SelectOnly(cs, i)) == [cs[i].value]
  {
    var r := SelectOnly(cs, i);
    assert forall k :: 0 <= k < |r| ==> r[k] == cs[k].(selected := k == i);
    var pre, mid, post := r[..i], r[i..i + 1], r[i + 1..];
    assert r == pre + mid + post;
    NoneSelected(pre);
    NoneSelected(post);
    assert mid == [] + [cs[i].(selected := true)];
    SelectedSplit(pre, mid);
    SelectedSplit(pre + mid, post);
  }

  /** Toggling the same button twice restores every flag. */
  lemma ToggledTwice(cs: seq<Choice>, i: nat)
    requires i < |cs|
    ensures Toggled(Toggled(cs, i), i) == cs
  {
  }

  /** How a sequence with one button singled out splits its count and scores. */
  lemma AroundOne(pre: seq<Choice>, c: Choice, post: seq<Choice>)
    ensures SelectedCount(pre + [c] + post) == SelectedCount(pre) + (if c.selected then 1 else 0) + SelectedCount(post)
    ensures var s, t, u := Tally(pre + [c] + post), Tally(pre), Tally(post);
      s.a == t.a + Contribution(c).a + u.a && s.b == t.b + Contribution(c).b + u.b
  {
    assert [c] == [] + [c];
    SelectedSplit(pre, [c]);
    SelectedSplit(pre + [c], post);
  }

  /** A toggle changes only the clicked button and moves the selected count by exactly one. */
  lemma ToggledCount(cs: seq<Choice>, i: nat)
    requires i < |cs|
    ensures forall k :: 0 <= k < |cs| && k != i ==> Toggled(cs, i)[k] == cs[k]
    ensures Toggled(cs, i)[i].selected == !cs[i].selected
    ensures SelectedCount(Toggled(cs, i)) == if cs[i].selected then SelectedCount(cs) - 1 else SelectedCount(cs) + 1
  {
    var t := Toggled(cs, i);
    assert cs == cs[..i] + [cs[i]] + cs[i + 1..];
    assert t[..i] == cs[..i] && t[i + 1..] == cs[i + 1..];
    assert t == t[..i] + [t[i]] + t[i + 1..];
    AroundOne(cs[..i], cs[i], cs[i + 1..]);
    AroundOne(cs[..i], t[i], cs[i + 1..]);
  }

  /** Flipping one button's flag moves its own tag's contribution by one. */
  lemma ContributionFlipped(c: Choice)
    ensures var d, sign := Contribution(c.(selected := !c.selected)), if c.selected then -1 else 1;
      && d.a == Contribution(c).a + (if c.path == "A" then sign else 0)
      && d.b == Contribution(c).b + (if c.path == "B" then sign else 0)
  {
    assert "A" != "B" by { assert "A"[0] != "B"[0]; }
  }

  /** Toggling a button moves its own tag's score by one and leaves the other score alone. */
  lemma {:induction false} TallyToggled(cs: seq<Choice>, i: nat)
    requires i < |cs|
    ensures var before, after := Tally(cs), Tally(Toggled(cs, i));
      var sign := if cs[i].selected then -1 else 1;
      && after.a == before.a + (if cs[i].path == "A" then sign else 0)
      && after.b == before.b + (if cs[i].path == "B" then sign else 0)
  {
    var t, n := Toggled(cs, i), |cs| - 1;
    assert t[..n] == if i == n then cs[..n] else Toggled(cs[..n], i);
    ContributionFlipped(cs[i]);
    if i < n {
      TallyToggled(cs[..n], i);
      assert t[n] == cs[n];
    }
  }

  /**
   * Two A-tagged buttons selected and a B-tagged one not selected score
   * {A: 2, B: 0}, and routing then picks path A.
   */
  lemma TallyExample()
    ensures var cs := [Choice("opt1", "", "A", true), Choice("opt2", "", "B", false), Choice("opt3", "", "A", true)];
      Tally(cs) == Scores(2, 0) && Route(Tally(cs)) == A
  {
    var cs := [Choice("opt1", "", "A", true), Choice("opt2", "", "B", false), Choice("opt3", "", "A", true)];
    assert cs[..2][..1] == cs[..1];
    assert cs[..2] == cs[..|cs| - 1];
  }
}
