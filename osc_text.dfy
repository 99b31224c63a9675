/** Joining items with a one-character separator, as the string sending
    mode builds its payload, and the splitting that undoes it. */
module OscText {

  /** Items separated by sep, built left to right the way the sending loop
      appends: the separator goes before every item but the first. */
  function Join(items: seq<string>, sep: char): string
    decreases |items|
  {
    if |items| == 0 then ""
    else if |items| == 1 then items[0]
    else Join(items[..|items| - 1], sep) + [sep] + items[|items| - 1]
  }

  /** The pieces of s between occurrences of sep (never empty: a string
      without sep is one piece). */
  function Split(s: string, sep: char): (r: seq<string>)
    ensures |r| >= 1
    decreases |s|
  {
    if |s| == 0 then [""]
    else
      var r := Split(s[..|s| - 1], sep);
      var c := s[|s| - 1];
      if c == sep then r + [""] else r[..|r| - 1] + [r[|r| - 1] + [c]]
  }

  /** Number of occurrences of c in s. */
  function Count(s: string, c: char): nat
  {
    multiset(s)[c]
  }

  /** No item contains the separator. */
  predicate FreeOf(items: seq<string>, sep: char)
  {
    forall i :: 0 <= i < |items| ==> sep !in items[i]
  }

  /** A string without the separator is a single piece. */
  lemma {:induction false} SplitWithoutSep(s: string, sep: char)
    requires sep !in s
    ensures Split(s, sep) == [s]
    decreases |s|
  {
    if |s| > 0 {
      SplitWithoutSep(s[..|s| - 1], sep);
      assert s[..|s| - 1] + [s[|s| - 1]] == s;
    }
  }

  /** Appending a separator and a separator-free tail adds exactly one piece. */
  lemma {:induction false} SplitAppend(a: string, b: string, sep: char)
    requires sep !in b
    ensures Split(a + [sep] + b, sep) == Split(a, sep) + [b]
    decreases |b|
  {
    var s := a + [sep] + b;
    if |b| == 0 {
      assert s == a + [sep];
      assert s[..|s| - 1] == a;
    } else {
      var b' := b[..|b| - 1];
      SplitAppend(a, b', sep);
      assert s[..|s| - 1] == a + [sep] + b';
      assert s[|s| - 1] == b[|b| - 1];
      assert b' + [b[|b| - 1]] == b;
    }
  }

  /** Splitting a join gives back the items. */
  lemma {:induction false} SplitJoin(items: seq<string>, sep: char)
    requires |items| > 0 && FreeOf(items, sep)
    ensures Split(Join(items, sep), sep) == items
    decreases |items|
  {
    if |items| == 1 {
      SplitWithoutSep(items[0], sep);
    } else {
      var init, last := items[..|items| - 1], items[|items| - 1];
      assert items == init + [last];
      FreeOfSnoc(init, last, sep);
      SplitJoin(init, sep);
      SplitAppend(Join(init, sep), last, sep);
    }
  }

  /** Items free of the separator stay so when the last one is split off. */
  lemma FreeOfSnoc(init: seq<string>, last: string, sep: char)
    requires FreeOf(init + [last], sep)
    ensures FreeOf(init, sep) && sep !in last
  {
    assert (init + [last])[|init|] == last;
    forall i | 0 <= i < |init| ensures sep !in init[i] {
      assert (init + [last])[i] == init[i];
    }
  }

  /** A string splits into one more piece than it has separators. */
  lemma {:induction false} SplitLength(s: string, sep: char)
    ensures |Split(s, sep)| == Count(s, sep) + 1
    decreases |s|
  {
    if |s| > 0 {
      SplitLength(s[..|s| - 1], sep);
      assert s == s[..|s| - 1] + [s[|s| - 1]];
      assert multiset(s) == multiset(s[..|s| - 1]) + multiset{s[|s| - 1]};
    }
  }

  /** The join of n separator-free items holds exactly n - 1 separators. */
  lemma CountJoin(items: seq<string>, sep: char)
    requires |items| > 0 && FreeOf(items, sep)
    ensures Count(Join(items, sep), sep) == |items| - 1
  {
    SplitJoin(items, sep);
    SplitLength(Join(items, sep), sep);
  }

  /** Joining one more item appends the separator and that item. */
  lemma JoinSnoc(items: seq<string>, x: string, sep: char)
    requires |items| > 0
    ensures Join(items + [x], sep) == Join(items, sep) + [sep] + x
  {
    assert (items + [x])[..|items|] == items;
  }
}
