/**
 * The bounded weight history of app.py. An entry stores its readings as
 * one comma-joined string; each new reading is appended to the split list
 * and only the last five are kept (`weights[-5:]`), and the report shows
 * the last piece of the split list.
 */
module WeightHistory {
  import opened PyText

  /** How many readings an entry keeps. */
  const MaxReadings: nat := 5

  /**
   * `str(weight)` of a submitted reading. Float formatting is not modelled:
   * a reading is any non-empty text without a comma, which every
   * `str(float)` is.
   */
  type Reading = s: string | s != [] && NoComma(s) witness "0.0"

  /** `xs[-5:]`: the last five elements, or all of them when there are fewer. */
  function KeepLast(xs: seq<string>): (r: seq<string>)
    ensures |r| == (if |xs| < MaxReadings then |xs| else MaxReadings)
    ensures r == xs[|xs| - |r|..]
  {
    if |xs| <= MaxReadings then xs else xs[|xs| - MaxReadings..]
  }

  /**
   * The stored weights after one more reading (lines 41-43 and 57-59):
   * they read back as exactly the last five of the old readings plus the
   * new one.
   */
  function Appended(stored: string, reading: Reading): (r: string)
    ensures Split(r) == KeepLast(Split(stored) + [reading])
  {
    var xs := Split(stored) + [reading];
    var kept := KeepLast(xs);
    assert forall i :: 0 <= i < |kept| ==> kept[i] == xs[|xs| - |kept| + i];
    SplitJoin(kept);
    Join(kept)
  }

  /**
   * The report's "last weight" of an entry, `weights.split(",")[-1]`: the
   * text after the last comma, or all of it when there is none.
   */
  function LastWeight(stored: string): (w: string)
    ensures NoComma(w)
    ensures |w| <= |stored| && w == stored[|stored| - |w|..]
    ensures |w| < |stored| ==> stored[|stored| - |w| - 1] == ','
  {
    SplitLast(stored);
    var parts := Split(stored);
    parts[|parts| - 1]
  }

  /**
   * The stored weights after appending each of `readings` in turn: after
   * one or more appends they read back as the last five of the old
   * readings followed by the new ones.
   */
  function AppendAll(stored: string, readings: seq<Reading>): (r: string)
    ensures readings != [] ==> Split(r) == KeepLast(Split(stored) + readings)
    decreases |readings|
  {
    if readings == [] then stored
    else
      var rest := readings[1..];
      var r := AppendAll(Appended(stored, readings[0]), rest);
      assert readings == [readings[0]] + rest;
      SlideOne(Split(stored), readings[0], rest);
      r
  }

  /** A reading stored on its own (the INSERT of a new entry) reads back as itself. */
  lemma SingleReading(reading: Reading)
    ensures Split(reading) == [reading]
  {
    SplitJoin([reading]);
  }

  /**
   * The keep-last-5 append: at most five readings, the new reading last,
   * and the ones before it the most recent old readings, in their order.
   */
  lemma AppendKeepsLastFive(stored: string, reading: Reading)
    ensures var before, after := Split(stored), Split(Appended(stored, reading));
      && |after| == (if |before| + 1 < MaxReadings then |before| + 1 else MaxReadings)
      && after[|after| - 1] == reading
      && after[..|after| - 1] == before[|before| - (|after| - 1)..]
  {
    KeepLastOfAppend(Split(stored), reading);
  }

  lemma KeepLastOfAppend(before: seq<string>, x: string)
    ensures var after := KeepLast(before + [x]);
      && |after| == (if |before| + 1 < MaxReadings then |before| + 1 else MaxReadings)
      && after[|after| - 1] == x
      && after[..|after| - 1] == before[|before| - (|after| - 1)..]
  {
    var xs := before + [x];
    var after := KeepLast(xs);
    assert after[..|after| - 1] == xs[|xs| - |after|..|xs| - 1];
    assert xs[..|xs| - 1] == before;
  }

  /** The report shows the reading appended last. */
  lemma LastWeightOfAppended(stored: string, reading: Reading)
    ensures LastWeight(Appended(stored, reading)) == reading
  {
    AppendKeepsLastFive(stored, reading);
  }

  /** Keeping the last five twice is keeping the last five once. */
  lemma KeepLastSlides(xs: seq<string>, ys: seq<string>)
    ensures KeepLast(KeepLast(xs) + ys) == KeepLast(xs + ys)
  {
    var zs := xs + ys;
    var a := |xs| - |KeepLast(xs)|;
    assert KeepLast(xs) + ys == zs[a..];
    var n := |KeepLast(zs)|;
    assert zs[a..][|zs[a..]| - n..] == zs[|zs| - n..];
  }

  lemma SlideOne(xs: seq<string>, r: string, rest: seq<string>)
    ensures KeepLast(KeepLast(xs + [r]) + rest) == KeepLast(xs + ([r] + rest))
  {
    KeepLastSlides(xs + [r], rest);
    assert xs + [r] + rest == xs + ([r] + rest);
  }

  /**
   * An entry created with `first` and then given `more` readings holds the
   * last five of all its readings, in order.
   */
  lemma FreshHistory(first: Reading, more: seq<Reading>)
    ensures Split(AppendAll(first, more)) == KeepLast([first] + more)
    ensures |Split(AppendAll(first, more))| <= MaxReadings
  {
    SingleReading(first);
    if more == [] {
      assert AppendAll(first, more) == first;
    } else {
      assert Split(AppendAll(first, more)) == KeepLast(Split(first) + more);
    }
  }

  /** Seven readings given to a fresh entry leave readings 3 to 7. */
  lemma SevenReadings(readings: seq<Reading>)
    requires |readings| == 7
    ensures Split(AppendAll(readings[0], readings[1..])) == readings[2..]
  {
    var first, more := readings[0], readings[1..];
    FreshHistory(first, more);
    KeepLastOfSeven(readings);
  }

  lemma KeepLastOfSeven(xs: seq<string>)
    requires |xs| == 7
    ensures KeepLast([xs[0]] + xs[1..]) == xs[2..]
  {
    assert [xs[0]] + xs[1..] == xs;
  }
}
