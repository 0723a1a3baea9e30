/** Cutting an event line to the message limit, and packing lines into batches. */
module Batching {

  newtype Byte = b: int | 0 <= b < 256
  type Text = seq<Byte>

  /** The three bytes of the ellipsis character that marks a cut. */
  const ELLIPSIS: Text := [0xE2, 0x80, 0xA6]

  // ----- UTF-8, section 4 of RFC 3629 -----

  predicate Tail(b: Byte) { 0x80 <= b <= 0xBF }

  predicate RuneStart(b: Byte) { !Tail(b) }

  /** The number of bytes of the first character, or 0 when the text does not start with one. */
  function Width(s: Text): (w: nat)
    ensures w <= |s|
  {
    if |s| >= 1 && s[0] <= 0x7F then 1
    else if |s| >= 2 && 0xC2 <= s[0] <= 0xDF && Tail(s[1]) then 2
    else if |s| >= 3 && ThreeByteHead(s[0], s[1]) && Tail(s[2]) then 3
    else if |s| >= 4 && FourByteHead(s[0], s[1]) && Tail(s[2]) && Tail(s[3]) then 4
    else 0
  }

  predicate ThreeByteHead(a: Byte, b: Byte) {
    || (a == 0xE0 && 0xA0 <= b <= 0xBF)
    || (0xE1 <= a <= 0xEC && Tail(b))
    || (a == 0xED && 0x80 <= b <= 0x9F)
    || (0xEE <= a <= 0xEF && Tail(b))
  }

  predicate FourByteHead(a: Byte, b: Byte) {
    || (a == 0xF0 && 0x90 <= b <= 0xBF)
    || (0xF1 <= a <= 0xF3 && Tail(b))
    || (a == 0xF4 && 0x80 <= b <= 0x8F)
  }

  predicate Utf8(s: Text)
    decreases |s|
  {
    s == [] || (Width(s) > 0 && Utf8(s[Width(s)..]))
  }

  /** A prefix of valid text is valid exactly when it ends between two characters. */
  lemma {:induction false} PrefixValidIff(s: Text, cut: nat)
    requires Utf8(s) && cut < |s|
    ensures Utf8(s[..cut]) <==> RuneStart(s[cut])
    decreases |s|
  {
    var w := Width(s);
    if cut < w {
      InsideFirst(s, cut);
    } else {
      assert Width(s[..cut]) == w;
      assert s[..cut][w..] == s[w..][..cut - w];
      if cut < |s| {
        PrefixValidIff(s[w..], cut - w);
      }
    }
  }

  lemma InsideFirst(s: Text, cut: nat)
    requires cut < Width(s)
    ensures Utf8(s[..cut]) <==> RuneStart(s[cut])
  {
  }

  lemma WidthOfConcat(a: Text, b: Text)
    requires Width(a) > 0
    ensures Width(a + b) == Width(a)
  {
  }

  lemma {:induction false} ConcatValid(a: Text, b: Text)
    requires Utf8(a) && Utf8(b)
    ensures Utf8(a + b)
    decreases |a|
  {
    hide Width;
    if a == [] {
      assert a + b == b;
    } else {
      var w := Width(a);
      WidthOfConcat(a, b);
      assert (a + b)[w..] == a[w..] + b;
      ConcatValid(a[w..], b);
    }
  }

  // ----- trim -----

  /** The last position at or before `cut` where a character starts, or 0. */
  function Aligned(value: Text, cut: nat): (at: nat)
    requires cut < |value|
    ensures at <= cut
    ensures at == 0 || RuneStart(value[at])
    ensures forall k :: at < k <= cut ==> Tail(value[k])
  {
    if cut == 0 || RuneStart(value[cut]) then cut else Aligned(value, cut - 1)
  }

  function Trimmed(value: Text, max: int): (r: Text)
    ensures |r| <= if max < 0 then 0 else max
  {
    if max <= |ELLIPSIS| then []
    else if |value| <= max then value
    else value[..Aligned(value, max - |ELLIPSIS|)] + ELLIPSIS
  }

  method Trim(value: Text, max: int) returns (r: Text)
    ensures r == Trimmed(value, max)
  {
    if max <= |ELLIPSIS| {
      return [];
    }
    if |value| <= max {
      return value;
    }
    var cut := max - |ELLIPSIS|;
    while cut > 0 && !RuneStart(value[cut])
      invariant 0 <= cut < |value|
      invariant Aligned(value, cut) == Aligned(value, max - |ELLIPSIS|)
    {
      cut := cut - 1;
    }
    r := value[..cut] + ELLIPSIS;
  }

  /** Trimming is the identity exactly on what fits, except that a limit of three bytes or less drops everything. */
  lemma TrimKeepsIff(value: Text, max: int)
    ensures Trimmed(value, max) == value <==> value == [] || (3 < max && |value| <= max)
  {
  }

  /**
   * Trimming valid text gives valid text, and when it cuts it keeps the longest run of whole
   * characters that leaves room for the ellipsis: no longer prefix that fits is valid.
   */
  lemma TrimCutsWholeCharacters(value: Text, max: int)
    requires Utf8(value)
    ensures Utf8(Trimmed(value, max))
    ensures 3 < max < |value| ==>
              exists cut: nat ::
                && cut <= max - 3
                && Trimmed(value, max) == value[..cut] + ELLIPSIS
                && Utf8(value[..cut])
                && forall k :: cut < k <= max - 3 ==> !Utf8(value[..k])
  {
    hide Width, Aligned;
    if 3 < max < |value| {
      var cut := Aligned(value, max - 3);
      AlignedIsLongest(value, max - 3);
      EllipsisValid();
      ConcatValid(value[..cut], ELLIPSIS);
    }
  }

  lemma EllipsisValid()
    ensures Utf8(ELLIPSIS)
  {
  }

  lemma AlignedIsLongest(value: Text, cut: nat)
    requires Utf8(value) && cut < |value|
    ensures Utf8(value[..Aligned(value, cut)])
    ensures forall k :: Aligned(value, cut) < k <= cut ==> !Utf8(value[..k])
  {
    hide Width, Aligned;
    var at := Aligned(value, cut);
    if at > 0 {
      PrefixValidIff(value, at);
    }
    forall k | at < k <= cut
      ensures !Utf8(value[..k])
    {
      PrefixValidIff(value, k);
    }
  }

  // ----- fitting one line -----

  /** How lines become a request: the format of an item, the serialized size, and the configured limit. */
  datatype Formatter<!T(!new)> = Formatter(format: T -> Text, serialize: seq<Text> -> nat, maxBytes: int) {

    /** The check made everywhere, with its reserve of 300 bytes. */
    predicate LinesFit(lines: seq<Text>) { serialize(lines) + 300 <= maxBytes }

    function Search(line: Text, low: nat, high: int, best: Text): Text
      requires high <= |line|
      decreases high - low + 1
    {
      if low > high then best
      else
        var middle := low + (high - low) / 2;
        var candidate := Trimmed(line, middle);
        if LinesFit([candidate]) then Search(line, middle + 1, high, candidate)
        else Search(line, low, middle - 1, best)
    }

    function Limited(item: T): Text {
      var line := format(item);
      if LinesFit([line]) then line else Search(line, 0, |line|, [])
    }

    function Lines(items: seq<T>): (lines: seq<Text>)
      ensures |lines| == |items|
    {
      seq(|items|, i requires 0 <= i < |items| => Limited(items[i]))
    }

    predicate Fits(batch: seq<T>) { LinesFit(Lines(batch)) }

    method FormatForLimit(item: T) returns (best: Text)
      ensures best == Limited(item)
    {
      hide Trimmed, LinesFit;
      var line := format(item);
      if LinesFit([line]) {
        return line;
      }
      best := [];
      var low, high := 0, |line|;
      while low <= high
        invariant 0 <= low <= high + 1 <= |line| + 1
        invariant Search(line, low, high, best) == Search(line, 0, |line|, [])
      {
        var middle := low + (high - low) / 2;
        var candidate := Trim(line, middle);
        if LinesFit([candidate]) {
          best := candidate;
          low := middle + 1;
        } else {
          high := middle - 1;
        }
      }
    }

    lemma {:induction false} SearchFits(line: Text, low: nat, high: int, best: Text)
      requires high <= |line| && LinesFit([best])
      ensures LinesFit([Search(line, low, high, best)])
      decreases high - low + 1
    {
      if low <= high {
        var middle := low + (high - low) / 2;
        var candidate := Trimmed(line, middle);
        if LinesFit([candidate]) {
          SearchFits(line, middle + 1, high, candidate);
        } else {
          SearchFits(line, low, middle - 1, best);
        }
      }
    }

    /** Whatever the size function does with cuts, a formatted line fits as soon as an empty line does. */
    lemma LimitedFits(item: T)
      requires LinesFit([[]])
      ensures LinesFit([Limited(item)]) && Fits([item])
    {
      var line := format(item);
      if !LinesFit([line]) {
        SearchFits(line, 0, |line|, []);
      }
      assert Lines([item]) == [Limited(item)];
    }

    /** Whether a shorter cut of a line that fits at `j` bytes always fits too. */
    ghost predicate ShorterCutsFit(line: Text) {
      forall i: nat, j: nat :: i <= j <= |line| && LinesFit([Trimmed(line, j)]) ==> LinesFit([Trimmed(line, i)])
    }

    ghost predicate LargestCut(line: Text, k: nat) {
      && k <= |line|
      && LinesFit([Trimmed(line, k)])
      && forall j :: k < j <= |line| ==> !LinesFit([Trimmed(line, j)])
    }

    lemma {:induction false} SearchFindsLargest(line: Text, low: nat, high: int, best: Text, k: nat)
      requires ShorterCutsFit(line) && LargestCut(line, k)
      requires high <= |line| && low <= k + 1 && k <= high
      requires low == k + 1 ==> best == Trimmed(line, k)
      ensures Search(line, low, high, best) == Trimmed(line, k)
      decreases high - low + 1
    {
      hide Trimmed, LinesFit;
      if low <= high {
        var middle := low + (high - low) / 2;
        var candidate := Trimmed(line, middle);
        if LinesFit([candidate]) {
          assert middle <= k;
          SearchFindsLargest(line, middle + 1, high, candidate, k);
        } else {
          assert middle > k;
          SearchFindsLargest(line, low, middle - 1, best, k);
        }
      }
    }

    /** When shorter cuts always fit, an over-long line is cut at the largest length that fits. */
    lemma LimitedIsLargestCut(item: T, k: nat)
      requires !LinesFit([format(item)]) && ShorterCutsFit(format(item))
      requires LargestCut(format(item), k)
      ensures Limited(item) == Trimmed(format(item), k)
    {
      SearchFindsLargest(format(item), 0, |format(item)|, [], k);
    }

    // ----- packing lines -----

    /** Every batch is nonempty and either fits or cannot be made smaller. */
    ghost predicate Admissible(batches: seq<seq<T>>) {
      forall i :: 0 <= i < |batches| ==> batches[i] != [] && (|batches[i]| == 1 || Fits(batches[i]))
    }

    /** Admissible, and no batch could have taken the first item of the next one. */
    ghost predicate Greedy(batches: seq<seq<T>>) {
      && Admissible(batches)
      && forall i :: 0 < i < |batches| ==> Overflows(batches[i - 1], batches[i])
    }

    ghost predicate Overflows(batch: seq<T>, next: seq<T>)
      requires next != []
    {
      !Fits(batch + [next[0]])
    }

    lemma Opens(batches: seq<seq<T>>, item: T)
      requires Greedy(batches)
      requires batches != [] ==> !Fits(batches[|batches| - 1] + [item])
      ensures Greedy(batches + [[item]])
      ensures Concat(batches + [[item]]) == Concat(batches) + [item]
    {
      hide Fits, Concat;
      ConcatAppend(batches, [item]);
    }

    lemma Grows(batches: seq<seq<T>>, item: T)
      requires Greedy(batches) && batches != [] && Fits(batches[|batches| - 1] + [item])
      ensures Greedy(batches[|batches| - 1 := batches[|batches| - 1] + [item]])
      ensures Concat(batches[|batches| - 1 := batches[|batches| - 1] + [item]]) == Concat(batches) + [item]
    {
      hide Fits, Concat;
      var last, before := batches[|batches| - 1], batches[..|batches| - 1];
      assert batches == before + [last];
      assert batches[|batches| - 1 := last + [item]] == before + [last + [item]];
      ConcatAppend(before, last);
      ConcatAppend(before, last + [item]);
    }

    method Split(items: seq<T>) returns (batches: seq<seq<T>>)
      ensures Concat(batches) == items
      ensures Greedy(batches)
      ensures LinesFit([[]]) ==> forall i :: 0 <= i < |batches| ==> Fits(batches[i])
    {
      hide Fits, LinesFit;
      batches := [];
      for n := 0 to |items|
        invariant Concat(batches) == items[..n]
        invariant Greedy(batches)
      {
        var item := items[n];
        assert items[..n + 1] == items[..n] + [item];
        if batches == [] {
          Opens(batches, item);
          batches := [[item]];
        } else {
          var candidate := batches[|batches| - 1] + [item];
          if !Fits(candidate) {
            Opens(batches, item);
            batches := batches + [[item]];
          } else {
            Grows(batches, item);
            batches := batches[|batches| - 1 := candidate];
          }
        }
      }
      assert items[..|items|] == items;
      forall i | LinesFit([[]]) && 0 <= i < |batches|
        ensures Fits(batches[i])
      {
        LimitedFits(batches[i][0]);
        assert |batches[i]| == 1 ==> batches[i] == [batches[i][0]];
      }
    }

    /** Size does not grow when items are dropped from either end. */
    ghost predicate SublistsFit() {
      forall b: seq<T>, lo: nat, hi: nat :: lo <= hi <= |b| && Fits(b) ==> Fits(b[lo..hi])
    }

    /**
     * The greedy split uses the fewest batches: any other cut of the same items into consecutive
     * admissible batches has at least as many. Stated for a split that has fallen `done` items behind.
     */
    lemma {:induction false} GreedyUsesFewest(greedy: seq<seq<T>>, other: seq<seq<T>>, done: nat)
      requires SublistsFit() && Greedy(greedy) && Admissible(other)
      requires done <= |Concat(other)| && Concat(greedy) == Concat(other)[done..]
      ensures |greedy| <= |other|
      decreases |other|
    {
      hide Fits, SublistsFit;
      if greedy != [] && other != [] {
        var first, end := greedy[0], |other[0]|;
        if done < end {
          FirstReaches(greedy, other, done);
          var next := done + |first| - end;
          assert Concat(greedy[1..]) == Concat(greedy)[|first|..];
          assert Concat(other[1..]) == Concat(other)[end..];
          assert Concat(greedy[1..]) == Concat(other[1..])[next..];
          GreedyUsesFewest(greedy[1..], other[1..], next);
        } else {
          assert Concat(other[1..]) == Concat(other)[end..];
          assert Concat(greedy) == Concat(other[1..])[done - end..];
          GreedyUsesFewest(greedy, other[1..], done - end);
        }
      }
    }

    /** If the split's first batch ended inside the other's, that batch would contain it with one item more. */
    lemma FallingShort(greedy: seq<seq<T>>, other: seq<seq<T>>, done: nat)
      requires greedy != [] && other != [] && forall i :: 0 <= i < |greedy| ==> greedy[i] != []
      requires done + |greedy[0]| < |other[0]| <= |Concat(other)| && Concat(greedy) == Concat(other)[done..]
      ensures |greedy| > 1 && greedy[0] + [greedy[1][0]] == other[0][done..done + |greedy[0]| + 1]
    {
    }

    lemma FirstReaches(greedy: seq<seq<T>>, other: seq<seq<T>>, done: nat)
      requires SublistsFit() && Greedy(greedy) && Admissible(other)
      requires greedy != [] && other != []
      requires done < |other[0]| && Concat(greedy) == Concat(other)[done..]
      ensures done + |greedy[0]| >= |other[0]|
    {
      hide Fits;
      assert Concat(other) == other[0] + Concat(other[1..]);
      assert |greedy| > 1 ==> Overflows(greedy[1 - 1], greedy[1]);
      if done + |greedy[0]| < |other[0]| {
        FallingShort(greedy, other, done);
      }
    }
  }

  function Concat<T>(batches: seq<seq<T>>): seq<T> {
    if batches == [] then [] else batches[0] + Concat(batches[1..])
  }

  lemma {:induction false} ConcatAppend<T>(batches: seq<seq<T>>, batch: seq<T>)
    ensures Concat(batches + [batch]) == Concat(batches) + batch
  {
    if batches == [] {
      assert [batch][1..] == [];
    } else {
      assert (batches + [batch])[1..] == batches[1..] + [batch];
      ConcatAppend(batches[1..], batch);
    }
  }

  /** The next batch continues the items of the batches before it. */
  lemma ConcatNext<T>(batches: seq<seq<T>>, j: nat)
    requires j < |batches|
    ensures Concat(batches[..j + 1]) == Concat(batches[..j]) + batches[j] <= Concat(batches)
  {
    hide Concat;
    ConcatSplit(batches, j + 1);
    assert batches[..j + 1] == batches[..j] + [batches[j]];
    ConcatAppend(batches[..j], batches[j]);
  }

  lemma {:induction false} ConcatSplit<T>(batches: seq<seq<T>>, k: nat)
    requires k <= |batches|
    ensures Concat(batches) == Concat(batches[..k]) + Concat(batches[k..])
  {
    if k == 0 {
      assert batches[0..] == batches;
    } else {
      ConcatSplit(batches, k - 1);
      assert batches[..k] == batches[..k - 1] + [batches[k - 1]];
      ConcatAppend(batches[..k - 1], batches[k - 1]);
      assert batches[k - 1..][1..] == batches[k..];
    }
  }
}
