/** The string building blocks of the emitter: Python's `"  " * k` indentation,
    `sep.join(parts)`, and counting the lines that open with a given tag. */
module Text {

  /** `"  " * level`: two spaces per nesting level. */
  function Indent(level: nat): (s: string)
    ensures |s| == 2 * level
    ensures forall i :: 0 <= i < |s| ==> s[i] == ' '
  {
    if level == 0 then "" else "  " + Indent(level - 1)
  }

  /** `sep.join(parts)`. */
  function Join(parts: seq<string>, sep: string): string
  {
    if |parts| == 0 then ""
    else if |parts| == 1 then parts[0]
    else parts[0] + sep + Join(parts[1..], sep)
  }

  predicate StartsWith(s: string, prefix: string) {
    |prefix| <= |s| && s[..|prefix|] == prefix
  }

  /** Number of lines that begin with `prefix`. */
  function CountStartingWith(lines: seq<string>, prefix: string): nat
  {
    if |lines| == 0 then 0
    else (if StartsWith(lines[0], prefix) then 1 else 0) + CountStartingWith(lines[1..], prefix)
  }

  lemma {:induction false} CountAppend(a: seq<string>, b: seq<string>, prefix: string)
    ensures CountStartingWith(a + b, prefix) == CountStartingWith(a, prefix) + CountStartingWith(b, prefix)
  {
    if |a| > 0 {
      assert (a + b)[1..] == a[1..] + b;
      CountAppend(a[1..], b, prefix);
    } else {
      assert a + b == b;
    }
  }

  lemma {:induction false} CountWhenAllStart(lines: seq<string>, prefix: string)
    requires forall i :: 0 <= i < |lines| ==> StartsWith(lines[i], prefix)
    ensures CountStartingWith(lines, prefix) == |lines|
  {
    if |lines| > 0 {
      CountWhenAllStart(lines[1..], prefix);
    }
  }

  lemma {:induction false} CountWhenNoneStart(lines: seq<string>, prefix: string)
    requires forall i :: 0 <= i < |lines| ==> !StartsWith(lines[i], prefix)
    ensures CountStartingWith(lines, prefix) == 0
  {
    if |lines| > 0 {
      CountWhenNoneStart(lines[1..], prefix);
    }
  }

  /** A string and a prefix that differ at some position inside the prefix. */
  lemma DiffersWithin(s: string, prefix: string, i: nat)
    requires i < |s| && i < |prefix| && s[i] != prefix[i]
    ensures !StartsWith(s, prefix)
  {
    if |prefix| <= |s| {
      assert s[..|prefix|][i] == s[i];
    }
  }

  /** Lines that all start with `tag` never start with a `prefix` that differs
      from `tag` at some position both share. */
  lemma CountOtherTag(lines: seq<string>, tag: string, prefix: string, p: nat)
    requires forall i :: 0 <= i < |lines| ==> StartsWith(lines[i], tag)
    requires p < |tag| && p < |prefix| && tag[p] != prefix[p]
    ensures CountStartingWith(lines, prefix) == 0
  {
    forall i | 0 <= i < |lines| ensures !StartsWith(lines[i], prefix) {
      assert lines[i][..|tag|][p] == lines[i][p];
      DiffersWithin(lines[i], prefix, p);
    }
    CountWhenNoneStart(lines, prefix);
  }

  lemma StartsWithConcat(a: string, b: string)
    ensures StartsWith(a + b, a)
  {
    assert (a + b)[..|a|] == a;
  }

  /** A line indented less deeply than `prefix` does not start with it. */
  lemma ShallowerLine(k: nat, rest: string, m: nat, prefix: string)
    requires k < m && |rest| > 0 && rest[0] != ' '
    requires StartsWith(prefix, Indent(m))
    ensures !StartsWith(Indent(k) + rest, prefix)
  {
    var line := Indent(k) + rest;
    assert line[2 * k] == rest[0];
    assert prefix[2 * k] == prefix[..2 * m][2 * k] == Indent(m)[2 * k] == ' ';
    DiffersWithin(line, prefix, 2 * k);
  }

  /** A block `[open] + body + [close]` counts what its body counts. */
  lemma CountBlock(open: string, body: seq<string>, close: string, prefix: string)
    requires !StartsWith(open, prefix) && !StartsWith(close, prefix)
    ensures CountStartingWith([open] + body + [close], prefix) == CountStartingWith(body, prefix)
  {
    CountAppend([open] + body, [close], prefix);
    CountAppend([open], body, prefix);
    CountWhenNoneStart([open], prefix);
    CountWhenNoneStart([close], prefix);
  }

  /** The text after the last `c` in `s`; all of `s` when `c` does not occur. */
  function AfterLast(s: string, c: char): string
  {
    if |s| == 0 then ""
    else if s[|s| - 1] == c then ""
    else AfterLast(s[..|s| - 1], c) + [s[|s| - 1]]
  }

  /** The text before the last `c` in `s`; empty when `c` does not occur. */
  function BeforeLast(s: string, c: char): string
  {
    if |s| == 0 then ""
    else if s[|s| - 1] == c then s[..|s| - 1]
    else BeforeLast(s[..|s| - 1], c)
  }

  /** Joining two texts with a separator that the second never holds can be undone. */
  lemma {:induction false} SplitAtLast(prefix: string, c: char, suffix: string)
    requires c !in suffix
    ensures AfterLast(prefix + [c] + suffix, c) == suffix
    ensures BeforeLast(prefix + [c] + suffix, c) == prefix
    decreases |suffix|
  {
    var s := prefix + [c] + suffix;
    if |suffix| == 0 {
      assert s[..|s| - 1] == prefix;
    } else {
      var shorter := suffix[..|suffix| - 1];
      assert s[..|s| - 1] == prefix + [c] + shorter;
      assert s[|s| - 1] == suffix[|suffix| - 1];
      assert suffix == shorter + [suffix[|suffix| - 1]];
      SplitAtLast(prefix, c, shorter);
    }
  }
}
