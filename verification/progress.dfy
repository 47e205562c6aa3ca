/** The progress indicator under the hero carousel. Every image gets a group
    of sticks followed by a zero-padded counter label, and the counter of the
    current image is highlighted. One more group of sticks closes the line. */
module ProgressIndicator {

  const MobileStickCount := 16
  const DesktopStickCount := 48

  /** Sticks per group for the current viewport. */
  function StickCount(isMobile: bool): nat {
    if isMobile then MobileStickCount else DesktopStickCount
  }

  /** A stick, or the counter of the image at `index`; a counter shows
      `Label(index)`. */
  datatype Item = Stick | Counter(index: nat, highlighted: bool)

  predicate IsDigit(c: char) {
    '0' <= c <= '9'
  }

  predicate AllDigits(s: string) {
    forall i :: 0 <= i < |s| ==> IsDigit(s[i])
  }

  predicate AllZeros(s: string) {
    forall i :: 0 <= i < |s| ==> s[i] == '0'
  }

  function DigitChar(d: nat): (c: char)
    requires d < 10
    ensures IsDigit(c) && (c == '0' <==> d == 0)
  {
    ('0' as int + d) as char
  }

  function DigitValue(c: char): (d: nat)
    requires IsDigit(c)
    ensures d < 10 && DigitChar(d) == c
  {
    c as int - '0' as int
  }

  /** `String(n)` for a non-negative integer: its decimal digits, with no
      leading zero except for 0 itself. */
  function NatToString(n: nat): (s: string)
    ensures |s| >= 1 && AllDigits(s)
    ensures s[0] == '0' <==> n == 0
    ensures n < 10 <==> |s| == 1
    ensures 10 <= n < 100 ==> |s| == 2
    decreases n
  {
    if n < 10 then [DigitChar(n)] else NatToString(n / 10) + [DigitChar(n % 10)]
  }

  /** The value of a string of decimal digits; the empty string is 0. */
  function ParseNat(s: string): nat
    requires AllDigits(s)
    decreases |s|
  {
    if s == [] then 0 else ParseNat(s[..|s| - 1]) * 10 + DigitValue(s[|s| - 1])
  }

  /** Reading the digits back gives the number. */
  lemma {:induction false} ParseNatToString(n: nat)
    ensures ParseNat(NatToString(n)) == n
    decreases n
  {
    var s := NatToString(n);
    if n < 10 {
      assert s[..|s| - 1] == [];
    } else {
      assert s[..|s| - 1] == NatToString(n / 10);
      ParseNatToString(n / 10);
    }
  }

  lemma {:induction false} ParseNatZeros(z: string)
    requires AllZeros(z)
    ensures AllDigits(z) && ParseNat(z) == 0
    decreases |z|
  {
    if z != [] {
      ParseNatZeros(z[..|z| - 1]);
    }
  }

  /** Leading zeros do not change the value. */
  lemma {:induction false} ParseNatLeadingZeros(z: string, s: string)
    requires AllZeros(z) && AllDigits(s)
    ensures AllDigits(z + s) && ParseNat(z + s) == ParseNat(s)
    decreases |s|
  {
    if s == [] {
      assert z + s == z;
      ParseNatZeros(z);
    } else {
      assert (z + s)[..|z + s| - 1] == z + s[..|s| - 1];
      ParseNatLeadingZeros(z, s[..|s| - 1]);
    }
  }

  /** `s.padStart(len, c)` with a one-character filler: `s` itself when it is
      long enough, otherwise `s` behind as many copies of `c` as make it `len` long. */
  function PadStart(s: string, len: nat, c: char): (r: string)
    ensures |r| == if |s| >= len then |s| else len
    ensures r[|r| - |s|..] == s
    ensures forall i :: 0 <= i < |r| - |s| ==> r[i] == c
  {
    if |s| >= len then s else seq(len - |s|, _ => c) + s
  }

  /** The label of the counter at `counterIndex`: `[` + the one-based number
      padded to two digits + `]`. */
  function Label(counterIndex: nat): string {
    "[" + PadStart(NatToString(counterIndex + 1), 2, '0') + "]"
  }

  /** A label is a bracketed run of digits whose value is the one-based
      counter number; it has exactly two digits up to 99 and no padding
      from 10 on. */
  lemma LabelShape(counterIndex: nat)
    ensures var r := Label(counterIndex);
      && |r| >= 4 && r[0] == '[' && r[|r| - 1] == ']'
      && AllDigits(r[1..|r| - 1]) && ParseNat(r[1..|r| - 1]) == counterIndex + 1
      && (counterIndex < 99 ==> |r| == 4)
      && (counterIndex >= 9 ==> r[1..|r| - 1] == NatToString(counterIndex + 1))
  {
    var d := NatToString(counterIndex + 1);
    var p := PadStart(d, 2, '0');
    var r := Label(counterIndex);
    assert r[1..|r| - 1] == p;
    var z := p[..|p| - |d|];
    assert p == z + d;
    ParseNatToString(counterIndex + 1);
    ParseNatLeadingZeros(z, d);
  }

  /** The first nine labels are `[0d]`, with `d` the one-based counter number. */
  lemma SingleDigitLabel(counterIndex: nat)
    requires counterIndex < 9
    ensures Label(counterIndex) == ['[', '0', DigitChar(counterIndex + 1), ']']
  {
    var d := NatToString(counterIndex + 1);
    assert d == [DigitChar(counterIndex + 1)];
    assert PadStart(d, 2, '0') == ['0'] + d;
  }

  /** Different counters never share a label. */
  lemma LabelInjective(i: nat, j: nat)
    ensures Label(i) == Label(j) ==> i == j
  {
    LabelShape(i);
    LabelShape(j);
  }

  lemma LabelExamples()
    ensures Label(0) == "[01]"
    ensures Label(9) == "[10]"
  {
    assert NatToString(1) == "1";
    assert NatToString(10) == "10" by {
      assert NatToString(1) == "1" && NatToString(0) == "0";
    }
  }

  function Sticks(k: nat): (r: seq<Item>)
    ensures |r| == k && forall i :: 0 <= i < k ==> r[i] == Stick
  {
    seq(k, _ => Stick)
  }

  /** `Array.from({ length: totalImages }, (_, i) => i)`: the counters
      0..total-1 in ascending order. */
  function CounterIndices(total: nat): (r: seq<nat>)
    ensures |r| == total
    ensures forall i :: 0 <= i < total ==> r[i] == i
    ensures forall i, j :: 0 <= i < j < total ==> r[i] < r[j]
  {
    seq(total, i => i)
  }

  function CounterItem(counterIndex: nat, current: int): Item {
    Counter(counterIndex, current == counterIndex)
  }

  /** One fragment of the map: `stickCount` sticks, then the counter. */
  function Group(stickCount: nat, current: int, counterIndex: nat): seq<Item> {
    Sticks(stickCount) + [CounterItem(counterIndex, current)]
  }

  /** The fragments of the given counters, in order. */
  function Groups(stickCount: nat, current: int, counters: seq<nat>): seq<Item>
    decreases |counters|
  {
    if counters == [] then []
    else Groups(stickCount, current, counters[..|counters| - 1]) + Group(stickCount, current, counters[|counters| - 1])
  }

  /** `ProgressIndicator`: a fragment per counter, then the final sticks. */
  function Layout(stickCount: nat, current: int, total: nat): (r: seq<Item>)
    ensures |r| == (stickCount + 1) * total + stickCount
    ensures forall j :: |r| - stickCount <= j < |r| ==> r[j] == Stick
  {
    GroupsLength(stickCount, current, total);
    Groups(stickCount, current, CounterIndices(total)) + Sticks(stickCount)
  }

  /** Position of the `j`-th item of the `k`-th group. */
  function Slot(stickCount: nat, k: nat, j: nat): nat {
    (stickCount + 1) * k + j
  }

  /** The slot arithmetic the layout lemmas need: group `k` ends before
      group `k + 1` starts. */
  lemma SlotBounds(stickCount: nat, k: nat, j: nat, total: nat)
    requires k < total && j <= stickCount
    ensures Slot(stickCount, k, j) < (stickCount + 1) * total
    ensures k == total - 1 ==> Slot(stickCount, k, j) == (stickCount + 1) * (total - 1) + j
  {
    assert Slot(stickCount, k, j) < (stickCount + 1) * (k + 1);
    MulMonotone(stickCount + 1, k + 1, total);
  }

  lemma MulMonotone(a: nat, b: nat, c: nat)
    requires b <= c
    ensures a * b <= a * c
  {
    assert a * c == a * b + a * (c - b);
  }

  /** The fragments of counters 0..total-1 with the last one split off. */
  lemma GroupsSplit(stickCount: nat, current: int, total: nat)
    requires total > 0
    ensures Groups(stickCount, current, CounterIndices(total))
      == Groups(stickCount, current, CounterIndices(total - 1)) + Group(stickCount, current, total - 1)
  {
    assert CounterIndices(total)[..total - 1] == CounterIndices(total - 1);
  }

  lemma {:induction false} GroupsLength(stickCount: nat, current: int, total: nat)
    ensures |Groups(stickCount, current, CounterIndices(total))| == (stickCount + 1) * total
    decreases total
  {
    if total > 0 {
      GroupsSplit(stickCount, current, total);
      GroupsLength(stickCount, current, total - 1);
      assert (stickCount + 1) * total == (stickCount + 1) * (total - 1) + (stickCount + 1);
    }
  }

  lemma {:induction false} GroupsAt(stickCount: nat, current: int, total: nat, k: nat, j: nat)
    requires k < total && j <= stickCount
    ensures Slot(stickCount, k, j) < |Groups(stickCount, current, CounterIndices(total))|
    ensures Groups(stickCount, current, CounterIndices(total))[Slot(stickCount, k, j)]
      == if j < stickCount then Stick else CounterItem(k, current)
    decreases total
  {
    GroupsSplit(stickCount, current, total);
    GroupsLength(stickCount, current, total - 1);
    GroupsLength(stickCount, current, total);
    var g0 := Groups(stickCount, current, CounterIndices(total - 1));
    var last := Group(stickCount, current, total - 1);
    if k < total - 1 {
      SlotBounds(stickCount, k, j, total - 1);
      GroupsAt(stickCount, current, total - 1, k, j);
      assert (g0 + last)[Slot(stickCount, k, j)] == g0[Slot(stickCount, k, j)];
    } else {
      SlotBounds(stickCount, k, j, total);
      assert (g0 + last)[Slot(stickCount, k, j)] == last[j];
    }
  }

  /** Item `j` of group `k` in the layout is the `j`-th item of that group. */
  lemma LayoutGroupAt(stickCount: nat, current: int, total: nat, k: nat, j: nat)
    requires k < total && j <= stickCount
    ensures Slot(stickCount, k, j) < |Layout(stickCount, current, total)|
    ensures Layout(stickCount, current, total)[Slot(stickCount, k, j)]
      == if j < stickCount then Stick else Counter(k, current == k)
  {
    var g := Groups(stickCount, current, CounterIndices(total));
    GroupsAt(stickCount, current, total, k, j);
    assert (g + Sticks(stickCount))[Slot(stickCount, k, j)] == g[Slot(stickCount, k, j)];
  }

  /** The items after the last group are the final sticks. */
  lemma LayoutTailAt(stickCount: nat, current: int, total: nat, j: nat)
    requires j < stickCount
    ensures Slot(stickCount, total, j) < |Layout(stickCount, current, total)|
    ensures Layout(stickCount, current, total)[Slot(stickCount, total, j)] == Stick
  {
    var g := Groups(stickCount, current, CounterIndices(total));
    GroupsLength(stickCount, current, total);
    assert Slot(stickCount, total, j) == |g| + j;
    assert (g + Sticks(stickCount))[|g| + j] == Sticks(stickCount)[j];
  }

  /** The layout order: group `k` is `stickCount` sticks followed by the
      counter `k` (showing `Label(k)`), highlighted iff it is the current
      image, and the last `stickCount` items are sticks. */
  lemma LayoutShape(stickCount: nat, current: int, total: nat)
    ensures var r := Layout(stickCount, current, total);
      && |r| == (stickCount + 1) * total + stickCount
      && (forall k: nat, j: nat :: k < total && j <= stickCount ==>
            Slot(stickCount, k, j) < |r| &&
            r[Slot(stickCount, k, j)] == if j < stickCount then Stick else Counter(k, current == k))
      && (forall j: nat :: j < stickCount ==>
            Slot(stickCount, total, j) < |r| && r[Slot(stickCount, total, j)] == Stick)
  {
    GroupsLength(stickCount, current, total);
    forall k: nat, j: nat | k < total && j <= stickCount
      ensures var r := Layout(stickCount, current, total);
        Slot(stickCount, k, j) < |r| &&
        r[Slot(stickCount, k, j)] == if j < stickCount then Stick else Counter(k, current == k)
    {
      LayoutGroupAt(stickCount, current, total, k, j);
    }
    forall j: nat | j < stickCount
      ensures var r := Layout(stickCount, current, total);
        Slot(stickCount, total, j) < |r| && r[Slot(stickCount, total, j)] == Stick
    {
      LayoutTailAt(stickCount, current, total, j);
    }
  }

  function StickTotal(items: seq<Item>): nat {
    if items == [] then 0 else (if items[0].Stick? then 1 else 0) + StickTotal(items[1..])
  }

  function HighlightCount(items: seq<Item>): nat {
    if items == [] then 0
    else (if items[0].Counter? && items[0].highlighted then 1 else 0) + HighlightCount(items[1..])
  }

  lemma {:induction false} CountsAppend(a: seq<Item>, b: seq<Item>)
    ensures StickTotal(a + b) == StickTotal(a) + StickTotal(b)
    ensures HighlightCount(a + b) == HighlightCount(a) + HighlightCount(b)
    decreases |a|
  {
    if a == [] {
      assert a + b == b;
    } else {
      assert (a + b)[1..] == a[1..] + b;
      CountsAppend(a[1..], b);
    }
  }

  lemma {:induction false} SticksCounts(k: nat)
    ensures StickTotal(Sticks(k)) == k && HighlightCount(Sticks(k)) == 0
    decreases k
  {
    if k > 0 {
      assert Sticks(k)[1..] == Sticks(k - 1);
      SticksCounts(k - 1);
    }
  }

  lemma GroupCounts(stickCount: nat, current: int, counterIndex: nat)
    ensures StickTotal(Group(stickCount, current, counterIndex)) == stickCount
    ensures HighlightCount(Group(stickCount, current, counterIndex)) == if current == counterIndex then 1 else 0
  {
    var c := CounterItem(counterIndex, current);
    SticksCounts(stickCount);
    CountsAppend(Sticks(stickCount), [c]);
    assert StickTotal([c]) == 0 by {
      assert [c][1..] == [];
    }
    assert HighlightCount([c]) == if current == counterIndex then 1 else 0 by {
      assert [c][1..] == [];
    }
  }

  lemma {:induction false} GroupsCounts(stickCount: nat, current: int, total: nat)
    ensures StickTotal(Groups(stickCount, current, CounterIndices(total))) == stickCount * total
    ensures HighlightCount(Groups(stickCount, current, CounterIndices(total))) == if 0 <= current < total then 1 else 0
    decreases total
  {
    if total > 0 {
      var g := Groups(stickCount, current, CounterIndices(total));
      var g0 := Groups(stickCount, current, CounterIndices(total - 1));
      var last := Group(stickCount, current, total - 1);
      GroupsSplit(stickCount, current, total);
      CountsAppend(g0, last);
      GroupCounts(stickCount, current, total - 1);
      GroupsCounts(stickCount, current, total - 1);
      assert StickTotal(g) == stickCount * total by {
        assert stickCount * total == stickCount * (total - 1) + stickCount;
      }
    }
  }

  /** `stickCount` sticks per counter plus the final group, and exactly one
      highlighted counter when the current index names one, none otherwise. */
  lemma LayoutCounts(stickCount: nat, current: int, total: nat)
    ensures StickTotal(Layout(stickCount, current, total)) == stickCount * (total + 1)
    ensures HighlightCount(Layout(stickCount, current, total)) == if 0 <= current < total then 1 else 0
  {
    GroupsCounts(stickCount, current, total);
    SticksCounts(stickCount);
    CountsAppend(Groups(stickCount, current, CounterIndices(total)), Sticks(stickCount));
  }
}
