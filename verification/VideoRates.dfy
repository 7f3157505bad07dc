// The frame rates of one advertised video format (src/pwf_video_enum.c).
module VideoRates {
  import opened Base

  const CAP: nat := 8

  predicate Descending(s: seq<int>) {
    forall i, j :: 0 <= i < j < |s| ==> s[i] > s[j]
  }

  // `list` is the CAP largest of the distinct rates offered so far, or all of
  // them when there are fewer, highest first.
  ghost predicate IsTop(list: seq<int>, offered: set<int>) {
    && Descending(list) && |list| == Min(CAP, |offered|)
    && (forall x <- list :: x in offered)
    && forall x <- offered :: x !in list ==> forall y <- list :: x < y
  }

  function Position(list: seq<int>, fps: int, from: nat := 0): (pos: nat)
    requires from <= |list|
    ensures from <= pos <= |list| && (pos < |list| ==> list[pos] <= fps)
    ensures forall k :: from <= k < pos ==> list[k] > fps
    decreases |list| - from
  {
    if from < |list| && list[from] > fps then Position(list, fps, from + 1) else from
  }

  function Insert(list: seq<int>, fps: int): (r: seq<int>)
    requires |list| <= CAP
    ensures |r| <= CAP
  {
    if fps in list then list
    else
      var grown := list[..Position(list, fps)] + [fps] + list[Position(list, fps)..];
      grown[..Min(CAP, |grown|)]
  }

  function InsertAll(list: seq<int>, rates: seq<int>): (r: seq<int>)
    requires |list| <= CAP
    ensures |r| <= CAP
  {
    if rates == [] then list else Insert(InsertAll(list, rates[..|rates| - 1]), rates[|rates| - 1])
  }

  // ---------------------------------------------------------------- the list

  function ToSet(s: seq<int>): set<int> {
    set x | x in s
  }

  lemma {:induction false} SizeOf(list: seq<int>)
    requires Descending(list)
    ensures |ToSet(list)| == |list|
  {
    if list != [] {
      var n := |list| - 1;
      SizeOf(list[..n]);
      assert list == list[..n] + [list[n]];
      assert ToSet(list) == ToSet(list[..n]) + {list[n]};
      assert list[n] !in list[..n];
    }
  }

  lemma GrownDescends(list: seq<int>, fps: int)
    requires Descending(list) && fps !in list
    ensures var pos := Position(list, fps); Descending(list[..pos] + [fps] + list[pos..])
  {
    var pos := Position(list, fps);
    forall k | pos <= k < |list| ensures list[k] < fps {
      assert list[pos] != fps;
    }
  }

  lemma InsertKeepsTop(list: seq<int>, offered: set<int>, fps: int)
    requires IsTop(list, offered)
    ensures IsTop(Insert(list, fps), offered + {fps})
  {
    if fps in offered {
      assert offered + {fps} == offered;
      if fps !in list {
        DroppedStays(list, offered, fps);
      }
    } else {
      var pos := Position(list, fps);
      var grown := list[..pos] + [fps] + list[pos..];
      GrownDescends(list, fps);
      CutIsTop(list, offered, fps, grown);
    }
  }

  // Keeping the first CAP of the list with a new rate in its place.
  lemma CutIsTop(list: seq<int>, offered: set<int>, fps: int, grown: seq<int>)
    requires IsTop(list, offered) && fps !in offered && Descending(grown) && |grown| == |list| + 1
    requires forall y :: y in grown <==> y in list || y == fps
    ensures IsTop(grown[..Min(CAP, |grown|)], offered + {fps})
  {
    assert |offered + {fps}| == |offered| + 1;
    var r := grown[..Min(CAP, |grown|)];
    assert forall y <- r :: y in grown;
    forall x <- offered + {fps} | x !in r ensures forall y <- r :: x < y {
      CutOff(grown, r, list, offered, fps, x);
    }
  }

  // A rate that was dropped, or one cut off now, is below all that stay.
  lemma CutOff(grown: seq<int>, r: seq<int>, list: seq<int>, offered: set<int>, fps: int, x: int)
    requires IsTop(list, offered) && fps !in offered && Descending(grown)
    requires forall y :: y in grown <==> y in list || y == fps
    requires |grown| == |list| + 1 && r == grown[..Min(CAP, |grown|)]
    requires x in offered + {fps} && x !in r
    ensures forall y <- r :: x < y
  {
    if x in grown {
      var k :| 0 <= k < |grown| && grown[k] == x;
      assert k >= |r|;
    } else {
      assert x in offered && x !in list;
      assert |list| == CAP by {
        if |offered| <= CAP {
          AllListed(list, offered);
        }
      }
      var last := grown[CAP];
      if last == fps {
        assert forall y <- r :: y in list;
      } else {
        assert last in list && x < last;
      }
    }
  }

  lemma AllListed(list: seq<int>, offered: set<int>)
    requires IsTop(list, offered) && |offered| <= CAP
    ensures forall x <- offered :: x in list
  {
    SizeOf(list);
    SubsetOfSameSize(ToSet(list), offered);
  }

  lemma SubsetOfSameSize(a: set<int>, b: set<int>)
    requires a <= b && |a| == |b|
    ensures a == b
  {
    assert a + (b - a) == b && a * (b - a) == {};
    assert b - a == {};
  }

  lemma Smaller(a: set<int>, b: set<int>)
    requires a <= b
    ensures |a| <= |b|
  {
    assert a + (b - a) == b && a * (b - a) == {};
  }

  // Offering again a rate that was dropped changes nothing.
  lemma DroppedStays(list: seq<int>, offered: set<int>, fps: int)
    requires IsTop(list, offered) && fps in offered && fps !in list
    ensures Insert(list, fps) == list
  {
    if |offered| <= CAP {
      AllListed(list, offered);
    }
    var pos := Position(list, fps);
    forall k | 0 <= k < |list| ensures list[k] > fps {
      assert list[k] in list;
    }
    assert pos == |list| == CAP;
    assert (list[..pos] + [fps] + list[pos..])[..CAP] == list;
  }

  // The list after any insertions is the top of what was offered.
  lemma {:induction false} InsertedIsTop(rates: seq<int>)
    ensures IsTop(InsertAll([], rates), ToSet(rates))
  {
    if rates == [] {
      assert ToSet(rates) == {};
    } else {
      var n := |rates| - 1;
      InsertedIsTop(rates[..n]);
      InsertKeepsTop(InsertAll([], rates[..n]), ToSet(rates[..n]), rates[n]);
      assert rates == rates[..n] + [rates[n]];
      assert ToSet(rates) == ToSet(rates[..n]) + {rates[n]};
    }
  }

  lemma {:induction false} DescendingUnique(a: seq<int>, b: seq<int>)
    requires Descending(a) && Descending(b) && forall x :: x in a <==> x in b
    ensures a == b
  {
    assert b == [] || b[0] in b;
    if a != [] {
      assert a[0] in a;
      assert a[0] in b && b[0] in a;
      assert a[0] == b[0];
      assert a == [a[0]] + a[1..] && b == [b[0]] + b[1..];
      forall x ensures x in a[1..] <==> x in b[1..] {
        assert x in a[1..] ==> x in a && x < a[0];
        assert x in b[1..] ==> x in b && x < b[0];
      }
      DescendingUnique(a[1..], b[1..]);
    }
  }

  lemma TopIsUnique(a: seq<int>, b: seq<int>, offered: set<int>)
    requires IsTop(a, offered) && IsTop(b, offered)
    ensures a == b
  {
    TopWithin(a, b, offered);
    TopWithin(b, a, offered);
    DescendingUnique(a, b);
  }

  lemma TopWithin(a: seq<int>, b: seq<int>, offered: set<int>)
    requires IsTop(a, offered) && IsTop(b, offered)
    ensures forall x <- a :: x in b
  {
    forall x <- a ensures x in b {
      if x !in b {
        // every entry of b is greater than x, and then in a as well
        assert forall y <- b :: y in a;
        SizeOf(a);
        SizeOf(b);
        var sa, sb := ToSet(a), ToSet(b);
        assert sb <= sa - {x};
        Smaller(sb, sa - {x});
      }
    }
  }

  // Neither the order in which rates are offered nor how often matters.
  lemma OrderDoesNotMatter(rates: seq<int>, others: seq<int>)
    requires ToSet(rates) == ToSet(others)
    ensures InsertAll([], rates) == InsertAll([], others)
  {
    InsertedIsTop(rates);
    InsertedIsTop(others);
    TopIsUnique(InsertAll([], rates), InsertAll([], others), ToSet(rates));
  }

  // ---------------------------------------------------- reading advertised rates

  datatype Choice = NoChoice | Range | Step | Enum | Flags

  type UInt32 = n: nat | n < 0x1_0000_0000

  datatype Fraction = Fraction(num: UInt32, denom: UInt32)

  // (int) of a uint32_t
  function ToInt(n: nat): int {
    if n < 0x8000_0000 then n else n - 0x1_0000_0000
  }

  // The rate a fraction stands for; one that is not positive is not kept.
  function RateOf(f: Fraction): int {
    if f.denom == 0 then 0 else ToInt(f.num / f.denom)
  }

  // The values that name a rate: not the default that an Enum or a range
  // repeats first, nor a step.
  function Named(choice: Choice, values: seq<Fraction>): seq<Fraction> {
    match choice
    case NoChoice => values[..Min(1, |values|)]
    case Enum => if |values| < 2 then [] else values[1..]
    case Range | Step => if |values| < 3 then [] else values[1..3]
    case Flags => []
  }

  function Rates(values: seq<Fraction>): seq<int> {
    if values == [] then []
    else
      var n := |values| - 1;
      Rates(values[..n]) + if RateOf(values[n]) > 0 then [RateOf(values[n])] else []
  }

  // The fps part of struct pwf_video_format_info.
  class FormatInfo {
    const fps: array<int>
    var nFps: nat

    predicate Valid()
      reads this
    {
      nFps <= CAP == fps.Length
    }

    function List(): (list: seq<int>)
      requires Valid()
      reads this, fps
      ensures |list| == nFps <= CAP
    {
      fps[..nFps]
    }

    constructor ()
      ensures Valid() && List() == []
      ensures fresh(fps)
    {
      fps := new int[CAP](_ => 0);
      nFps := 0;
    }

    // pwf_video_insert_framerate
    method InsertFramerate(rate: int)
      requires Valid()
      modifies this, fps
      ensures Valid() && List() == Insert(old(List()), rate)
    {
      hide Insert;
      ghost var list := List();
      for i := 0 to nFps
        invariant forall k :: 0 <= k < i ==> fps[k] != rate
      {
        if fps[i] == rate {
          assert list[i] == rate;
          PresentStays(list, rate);
          return;
        }
      }
      var pos := 0;
      while pos < nFps && fps[pos] > rate
        invariant 0 <= pos <= nFps && Position(list, rate, pos) == Position(list, rate)
      {
        pos := pos + 1;
      }
      assert rate !in list && Position(list, rate) == pos;
      if pos == CAP {
        FullStays(list, rate);
        return;
      }
      StoreAt(pos, rate);
    }

    // Makes room at `pos`, over the last entry when the list is full.
    method StoreAt(pos: nat, rate: int)
      requires Valid() && pos <= nFps && pos < CAP && rate !in List() && pos == Position(List(), rate)
      modifies this, fps
      ensures Valid() && List() == Insert(old(List()), rate)
    {
      hide Insert;
      ghost var list := List();
      var last := if nFps < CAP then nFps else CAP - 1;
      var i := last;
      while i > pos
        invariant pos <= i <= last
        invariant forall k :: 0 <= k < i && k < nFps ==> fps[k] == list[k]
        invariant forall k :: i < k <= last ==> fps[k] == list[k - 1]
        modifies fps
      {
        fps[i] := fps[i - 1];
        i := i - 1;
      }
      fps[pos] := rate;
      if nFps < CAP {
        nFps := nFps + 1;
      }
      Shifted(list, pos, rate, fps[..nFps]);
    }

    // pwf_video_parse_framerates, on the values of the frame-rate property
    method ParseFramerates(choice: Choice, values: seq<Fraction>)
      requires Valid()
      modifies this, fps
      ensures Valid() && List() == InsertAll(old(List()), Rates(Named(choice, values)))
    {
      hide Insert, InsertAll, Rates;
      NoneYet(List());
      if values == [] {
        return;
      }
      var first, last := 0, 0;
      match choice {
        case NoChoice =>
        case Enum =>
          if |values| < 2 {
            return;
          }
          first, last := 1, |values| - 1;
        case Range | Step =>
          if |values| < 3 {
            return;
          }
          first, last := 1, 2;
        case Flags =>
          return;
      }
      InsertRange(values, first, last + 1);
      assert Named(choice, values) == values[first..last + 1];
    }

    // The parsing loop, over values[first..end].
    method InsertRange(values: seq<Fraction>, first: nat, end: nat)
      requires Valid() && first <= end <= |values|
      modifies this, fps
      ensures Valid() && List() == InsertAll(old(List()), Rates(values[first..end]))
    {
      hide Insert, InsertAll, Rates, RateOf;
      ghost var start := List();
      NoneYet(start);
      assert values[first..first] == [];
      for i := first to end
        invariant Valid() && List() == InsertAll(start, Rates(values[first..i]))
      {
        assert values[first..i + 1] == values[first..i] + [values[i]];
        OneMore(values[first..i], values[i], start);
        RateIs(values[i]);
        if values[i].denom == 0 {
          continue;
        }
        var rate := ToInt(values[i].num / values[i].denom);
        if rate > 0 {
          InsertFramerate(rate);
        }
      }
    }
  }

  lemma RateIs(f: Fraction)
    ensures RateOf(f) == if f.denom == 0 then 0 else ToInt(f.num / f.denom)
  {
  }

  lemma PresentStays(list: seq<int>, rate: int)
    requires |list| <= CAP && rate in list
    ensures Insert(list, rate) == list
  {
  }

  lemma FullStays(list: seq<int>, rate: int)
    requires |list| == CAP == Position(list, rate)
    ensures Insert(list, rate) == list
  {
    assert (list[..CAP] + [rate] + list[CAP..])[..CAP] == list;
  }

  lemma Shifted(list: seq<int>, pos: nat, rate: int, r: seq<int>)
    requires rate !in list && pos == Position(list, rate) < CAP && |list| <= CAP
    requires |r| == Min(CAP, |list| + 1) && r[pos] == rate
    requires forall k :: 0 <= k < pos ==> r[k] == list[k]
    requires forall k :: pos < k < |r| ==> r[k] == list[k - 1]
    ensures r == Insert(list, rate)
  {
  }

  lemma OneMore(values: seq<Fraction>, f: Fraction, start: seq<int>)
    requires |start| <= CAP
    ensures InsertAll(start, Rates(values + [f]))
         == var before := InsertAll(start, Rates(values)); if RateOf(f) > 0 then Insert(before, RateOf(f)) else before
  {
    hide Insert, RateOf;
    assert (values + [f])[..|values|] == values;
    var before, rate := Rates(values), RateOf(f);
    if rate > 0 {
      assert Rates(values + [f]) == before + [rate];
      assert (before + [rate])[..|before|] == before;
    } else {
      assert Rates(values + [f]) == before;
    }
  }

  lemma NoneYet(start: seq<int>)
    requires |start| <= CAP
    ensures InsertAll(start, Rates([])) == start
  {
  }

  // Value i of n names a rate: the only one; one of an Enum after its default;
  // an end of a range, after its default and before its step; and no flag.
  predicate NamesRate(choice: Choice, n: nat, i: nat) {
    match choice
    case NoChoice => i == 0
    case Enum => i > 0
    case Range | Step => n >= 3 && (i == 1 || i == 2)
    case Flags => false
  }

  predicate Offers(choice: Choice, values: seq<Fraction>, x: int) {
    x > 0 && exists i :: 0 <= i < |values| && NamesRate(choice, |values|, i) && RateIsOffered(values[i], x)
  }

  predicate RateIsOffered(f: Fraction, x: int) {
    f.denom != 0 && f.num / f.denom == x < 0x8000_0000
  }

  // What a format says its rates are, is the top of the positive whole rates
  // that the advertised values which name one stand for.
  lemma ParsedIsTop(choice: Choice, values: seq<Fraction>)
    ensures var rates := ToSet(Rates(Named(choice, values)));
            && IsTop(InsertAll([], Rates(Named(choice, values))), rates)
            && forall x :: x in rates <==> Offers(choice, values, x)
  {
    hide Rates;
    var named := Named(choice, values);
    InsertedIsTop(Rates(named));
    RatesMembers(named);
    forall x ensures x in Rates(named) <==> Offers(choice, values, x) {
      hide RateIsOffered;
      if f :| f in named && RateIsOffered(f, x) {
        var k :| 0 <= k < |named| && named[k] == f;
        assert values[if choice == NoChoice then k else k + 1] == f;
      }
      if i :| 0 <= i < |values| && NamesRate(choice, |values|, i) && RateIsOffered(values[i], x) {
        assert named[if choice == NoChoice then i else i - 1] == values[i];
      }
    }
  }

  lemma {:induction false} RatesMembers(values: seq<Fraction>)
    ensures forall x :: x in Rates(values) <==> x > 0 && exists f <- values :: RateIsOffered(f, x)
  {
    if values != [] {
      hide RateIsOffered, RateOf;
      var n := |values| - 1;
      RatesMembers(values[..n]);
      LastSplit(values);
      var last := values[n];
      forall x | x > 0 ensures x in Rates(values) <==> exists f <- values :: RateIsOffered(f, x) {
        RateIsOffer(last, x);
        assert last in values;
        if f :| f in values && RateIsOffered(f, x) && f != last {
          assert f in values[..n];
        }
      }
    }
  }

  lemma RateIsOffer(f: Fraction, x: int)
    requires x > 0
    ensures RateOf(f) == x <==> RateIsOffered(f, x)
  {
    if f.denom != 0 {
      assert f.num / f.denom < 0x1_0000_0000;
    }
  }
}
