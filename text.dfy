/**
 * The string operations the renderer and the sync rule rely on: joining with a
 * separator, splitting into lines (Go's `strings.Split(s, "\n")`), and
 * `strings.Contains`.
 */
module Text {

  /** `parts` with `sep` between neighbours; defined from the back, as a loop builds it. */
  function Join(parts: seq<string>, sep: string): string {
    if |parts| == 0 then ""
    else if |parts| == 1 then parts[0]
    else Join(parts[..|parts| - 1], sep) + sep + parts[|parts| - 1]
  }

  /** The pieces of `s` between newlines; there is always at least one. */
  function Lines(s: string): (ls: seq<string>)
    ensures |ls| >= 1
  {
    if |s| == 0 then [""]
    else if s[0] == '\n' then [""] + Lines(s[1..])
    else
      var rest := Lines(s[1..]);
      [[s[0]] + rest[0]] + rest[1..]
  }

  /** Appending a part extends the joined text by the separator and that part. */
  lemma JoinSnoc(parts: seq<string>, x: string, sep: string)
    ensures Join(parts + [x], sep) == if |parts| == 0 then x else Join(parts, sep) + sep + x
  {
    assert (parts + [x])[..|parts|] == parts;
  }

  /** The lines of each part, one after the other. */
  function AllLines(parts: seq<string>): seq<string> {
    if |parts| == 0 then [] else AllLines(parts[..|parts| - 1]) + Lines(parts[|parts| - 1])
  }

  predicate NoNewline(s: string) {
    '\n' !in s
  }

  /** Go's `strings.Contains(s, sub)`. */
  predicate Contains(s: string, sub: string)
    decreases |s|
  {
    |sub| <= |s| && (s[..|sub|] == sub || Contains(s[1..], sub))
  }

  lemma {:induction false} LinesOfLine(s: string)
    requires NoNewline(s)
    ensures Lines(s) == [s]
  {
    if |s| > 0 {
      LinesOfLine(s[1..]);
      assert [s[0]] + s[1..] == s;
    }
  }

  /** A newline splits the text into the lines before it and the lines after it. */
  lemma {:induction false} LinesAppend(a: string, b: string)
    ensures Lines(a + "\n" + b) == Lines(a) + Lines(b)
  {
    if |a| == 0 {
      assert a + "\n" + b == "\n" + b;
      assert ("\n" + b)[1..] == b;
    } else {
      var c, tail := a[0], a[1..] + "\n" + b;
      assert a + "\n" + b == [c] + tail;
      assert a == [c] + a[1..];
      LinesAppend(a[1..], b);
      LinesCons(c, tail);
      LinesCons(c, a[1..]);
      ConsAppend(c, Lines(a[1..]), Lines(b));
    }
  }

  /** The step of LinesAppend: a leading character acts alike on the lines of `r` and of `r` followed by more lines. */
  lemma ConsAppend(c: char, rest: seq<string>, lb: seq<string>)
    requires |rest| >= 1
    ensures (if c == '\n' then [""] + (rest + lb) else [[c] + (rest + lb)[0]] + (rest + lb)[1..]) ==
      (if c == '\n' then [""] + rest else [[c] + rest[0]] + rest[1..]) + lb
  {
    if c != '\n' {
      assert (rest + lb)[0] == rest[0];
      assert (rest + lb)[1..] == rest[1..] + lb;
    }
  }

  /** The lines of a text that starts with character `c`. */
  lemma LinesCons(c: char, s: string)
    ensures Lines([c] + s) ==
      if c == '\n' then [""] + Lines(s) else [[c] + Lines(s)[0]] + Lines(s)[1..]
  {
    assert ([c] + s)[0] == c && ([c] + s)[1..] == s;
  }

  /** A newline-free prefix only extends the first line. */
  lemma {:induction false} LinesPrefix(p: string, s: string)
    requires NoNewline(p)
    ensures Lines(p + s) == [p + Lines(s)[0]] + Lines(s)[1..]
  {
    if |p| > 0 {
      var t := p + s;
      assert t[0] == p[0] && p[0] != '\n';
      assert t[1..] == p[1..] + s;
      LinesPrefix(p[1..], s);
      var rest := Lines(t[1..]);
      assert rest[0] == p[1..] + Lines(s)[0];
      assert rest[1..] == Lines(s)[1..];
      assert Lines(t) == [[p[0]] + rest[0]] + rest[1..];
      assert [p[0]] + (p[1..] + Lines(s)[0]) == p + Lines(s)[0];
    } else {
      var ls := Lines(s);
      assert p + s == s && p + ls[0] == ls[0];
      assert [ls[0]] + ls[1..] == ls;
    }
  }

  /** Splitting a newline-joined text gives back the lines of every part. */
  lemma {:induction false} LinesOfJoin(parts: seq<string>)
    requires |parts| >= 1
    ensures Lines(Join(parts, "\n")) == AllLines(parts)
  {
    if |parts| > 1 {
      var init := parts[..|parts| - 1];
      LinesOfJoin(init);
      LinesAppend(Join(init, "\n"), parts[|parts| - 1]);
    } else {
      assert AllLines(parts) == AllLines([]) + Lines(parts[0]);
    }
  }

  /** When no part holds a newline, splitting inverts joining: one line per part. */
  lemma {:induction false} SplitJoin(parts: seq<string>)
    requires |parts| >= 1
    requires forall k :: 0 <= k < |parts| ==> NoNewline(parts[k])
    ensures Lines(Join(parts, "\n")) == parts
  {
    LinesOfJoin(parts);
    AllLinesOfLines(parts);
  }

  lemma {:induction false} AllLinesOfLines(parts: seq<string>)
    requires forall k :: 0 <= k < |parts| ==> NoNewline(parts[k])
    ensures AllLines(parts) == parts
  {
    if |parts| > 0 {
      AllLinesOfLines(parts[..|parts| - 1]);
      LinesOfLine(parts[|parts| - 1]);
    }
  }

  /** A newline-free header followed by newline-free entries: one line each. */
  lemma HeaderAndLines(header: string, bs: seq<string>)
    requires NoNewline(header) && |bs| >= 1
    requires forall k :: 0 <= k < |bs| ==> NoNewline(bs[k])
    ensures Lines(header + "\n" + Join(bs, "\n")) == [header] + bs
  {
    LinesAppend(header, Join(bs, "\n"));
    LinesOfLine(header);
    SplitJoin(bs);
  }

  /** `sub` occurs in any text that has it as an infix. */
  lemma {:induction false} ContainsInfix(a: string, sub: string, b: string)
    ensures Contains(a + sub + b, sub)
  {
    var s := a + sub + b;
    if |a| == 0 {
      assert s[..|sub|] == sub;
    } else {
      assert s[1..] == a[1..] + sub + b;
      ContainsInfix(a[1..], sub, b);
    }
  }

  /** Contains finds only real occurrences: it holds a position where `sub` starts. */
  lemma {:induction false} ContainsHasWitness(s: string, sub: string) returns (i: nat)
    requires Contains(s, sub)
    ensures i + |sub| <= |s| && s[i..i + |sub|] == sub
  {
    if s[..|sub|] == sub {
      i := 0;
    } else {
      var j := ContainsHasWitness(s[1..], sub);
      assert s[1..][j..j + |sub|] == s[j + 1..j + 1 + |sub|];
      i := j + 1;
    }
  }

  /** The text of a group of two bullets whose first bullet is itself a one-bullet group, regrouped. */
  lemma NestedBullets(header: string, innerHeader: string, ra: string, rb: string)
    ensures header + "X:" + "\n" + (("- " + (innerHeader + "X:\n- " + ra)) + "\n" + ("- " + rb)) ==
      header + "X:\n- " + innerHeader + "X:\n- " + ra + "\n- " + rb
  {
    assert header + "X:" + "\n" + "- " == header + "X:\n- ";
    assert "\n" + ("- " + rb) == "\n- " + rb;
  }

  /** Concatenation regroups: a prefix can be split off a three-part text. */
  lemma Regroup(a: string, b: string, c: string, d: string)
    ensures a + b + c + d == a + (b + c + d)
  {
    assert (a + b + c + d)[..|a|] == a;
    assert (a + b + c + d)[|a|..] == b + c + d;
  }

  /** The text of a group of one bullet, regrouped. */
  lemma OneBullet(header: string, r: string)
    ensures header + "X:" + "\n" + ("- " + r) == header + "X:\n- " + r
  {
    assert header + "X:" + "\n" + "- " == header + "X:\n- ";
  }
}
