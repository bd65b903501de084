/** String searching, splitting and joining, as the Swift standard library and Foundation define them. */
module Text {

  /** `p` occurs in `s` at offset `i`. */
  predicate At(s: string, p: string, i: int) {
    0 <= i <= |s| && p <= s[i..]
  }

  predicate StartsWith(s: string, p: string) {
    p <= s
  }

  function FindFrom(s: string, p: string, from: nat): (r: int)
    requires from <= |s|
    ensures r != -1 ==> from <= r && r + |p| <= |s|
    decreases |s| - from
  {
    if At(s, p, from) then from
    else if from == |s| then -1
    else FindFrom(s, p, from + 1)
  }

  /** The leftmost occurrence of `p`, as `range(of:)` finds it; -1 when there is none. */
  function Find(s: string, p: string): (r: int)
    ensures r != -1 ==> 0 <= r && r + |p| <= |s|
  {
    FindFrom(s, p, 0)
  }

  lemma {:induction false} FindFromIsAt(s: string, p: string, from: nat)
    requires from <= |s| && FindFrom(s, p, from) != -1
    ensures At(s, p, FindFrom(s, p, from))
    decreases |s| - from
  {
    if !At(s, p, from) {
      FindFromIsAt(s, p, from + 1);
    }
  }

  /** What is found is there. */
  lemma FindIsAt(s: string, p: string)
    requires Find(s, p) != -1
    ensures At(s, p, Find(s, p))
  {
    FindFromIsAt(s, p, 0);
  }

  lemma {:induction false} FindFromIsLeftmost(s: string, p: string, from: nat, i: int)
    requires from <= |s| && from <= i && At(s, p, i)
    ensures FindFrom(s, p, from) != -1 && FindFrom(s, p, from) <= i
    decreases |s| - from
  {
    if !At(s, p, from) {
      FindFromIsLeftmost(s, p, from + 1, i);
    }
  }

  /** An occurrence anywhere means that `Find` succeeds, there or further left. */
  lemma FindIsLeftmost(s: string, p: string, i: int)
    requires At(s, p, i)
    ensures Find(s, p) != -1 && Find(s, p) <= i
  {
    FindFromIsLeftmost(s, p, 0, i);
  }

  /** The first `c` in `s` from `from` on, as `firstIndex(of:)` finds it; -1 when there is none. */
  function IndexOf(s: string, c: char, from: nat): (r: int)
    requires from <= |s|
    ensures r != -1 ==> from <= r < |s| && s[r] == c
    decreases |s| - from
  {
    if from == |s| then -1 else if s[from] == c then from else IndexOf(s, c, from + 1)
  }

  /** Nothing is skipped. */
  lemma {:induction false} IndexIsFirst(s: string, c: char, from: nat)
    requires from <= |s|
    ensures var r := IndexOf(s, c, from); c !in s[from..if r == -1 then |s| else r]
    decreases |s| - from
  {
    if from < |s| && s[from] != c {
      IndexIsFirst(s, c, from + 1);
      var r := IndexOf(s, c, from + 1);
      var end := if r == -1 then |s| else r;
      assert s[from..end] == [s[from]] + s[from + 1..end];
    }
  }

  lemma {:induction false} IndexNowhere(s: string, c: char, from: nat)
    requires from <= |s| && c !in s[from..]
    ensures IndexOf(s, c, from) == -1
    decreases |s| - from
  {
    if from < |s| {
      assert s[from] == s[from..][0] && s[from + 1..] == s[from..][1..];
      IndexNowhere(s, c, from + 1);
    }
  }

  lemma {:induction false} IndexAt(s: string, c: char, from: nat, i: nat)
    requires from <= i < |s| && s[i] == c && c !in s[from..i]
    ensures IndexOf(s, c, from) == i
    decreases i - from
  {
    if from < i {
      assert s[from] == s[from..i][0];
      assert s[from + 1..i] == s[from..i][1..];
      IndexAt(s, c, from + 1, i);
    }
  }

  /** One more character in front of split text. */
  function Glue(c: char, sep: char, rest: seq<string>): (parts: seq<string>)
    requires |rest| > 0 && forall p :: p in rest ==> sep !in p
    ensures |parts| > 0 && forall p :: p in parts ==> sep !in p
  {
    if c == sep then [""] + rest else [[c] + rest[0]] + rest[1..]
  }

  /** Everything `split(separator:omittingEmptySubsequences: false)` returns. */
  function Split(s: string, sep: char): (parts: seq<string>)
    ensures |parts| > 0
    ensures forall p :: p in parts ==> sep !in p
  {
    if s == "" then [""] else Glue(s[0], sep, Split(s[1..], sep))
  }

  lemma GlueAppend(c: char, sep: char, rest: seq<string>, more: seq<string>)
    requires |rest| > 0 && forall p :: p in rest + more ==> sep !in p
    ensures Glue(c, sep, rest + more) == Glue(c, sep, rest) + more
  {
    assert (rest + more)[1..] == rest[1..] + more;
  }

  lemma {:induction false} SplitAppend(a: string, b: string, sep: char)
    ensures Split(a + [sep] + b, sep) == Split(a, sep) + Split(b, sep)
  {
    var s := a + [sep] + b;
    if a == "" {
      assert s[1..] == b;
    } else {
      SplitAppend(a[1..], b, sep);
      assert s[0] == a[0] && s[1..] == a[1..] + [sep] + b;
      GlueAppend(a[0], sep, Split(a[1..], sep), Split(b, sep));
    }
  }

  function Join(parts: seq<string>, sep: char): string {
    if parts == [] then ""
    else if |parts| == 1 then parts[0]
    else parts[0] + [sep] + Join(parts[1..], sep)
  }

  lemma {:induction false} SplitWhole(line: string, sep: char)
    requires sep !in line
    ensures Split(line, sep) == [line]
  {
    if line != "" {
      SplitWhole(line[1..], sep);
      assert line == [line[0]] + line[1..];
    }
  }

  lemma SplitCons(line: string, tail: string, sep: char)
    requires sep !in line
    ensures Split(line + [sep] + tail, sep) == [line] + Split(tail, sep)
  {
    SplitAppend(line, tail, sep);
    SplitWhole(line, sep);
  }

  lemma {:induction false} SplitJoin(parts: seq<string>, sep: char)
    requires |parts| > 0 && forall p :: p in parts ==> sep !in p
    ensures Split(Join(parts, sep), sep) == parts
  {
    if |parts| == 1 {
      SplitWhole(parts[0], sep);
    } else {
      SplitJoin(parts[1..], sep);
      SplitCons(parts[0], Join(parts[1..], sep), sep);
      assert parts == [parts[0]] + parts[1..];
    }
  }

  lemma JoinGlue(c: char, sep: char, rest: seq<string>)
    requires |rest| > 0 && forall p :: p in rest ==> sep !in p
    ensures Join(Glue(c, sep, rest), sep) == [c] + Join(rest, sep)
  {
    if c == sep {
      assert Glue(c, sep, rest)[1..] == rest;
    } else if |rest| > 1 {
      assert Glue(c, sep, rest)[1..] == rest[1..];
    }
  }

  /** Nothing is lost by splitting. */
  lemma {:induction false} JoinSplit(s: string, sep: char)
    ensures Join(Split(s, sep), sep) == s
  {
    if s != "" {
      JoinSplit(s[1..], sep);
      JoinGlue(s[0], sep, Split(s[1..], sep));
    }
  }

  function Concat<T>(blocks: seq<seq<T>>): seq<T> {
    if blocks == [] then [] else blocks[0] + Concat(blocks[1..])
  }

  lemma {:induction false} ConcatAppend<T>(a: seq<seq<T>>, b: seq<seq<T>>)
    ensures Concat(a + b) == Concat(a) + Concat(b)
  {
    if a == [] {
      assert a + b == b;
    } else {
      assert Concat(a + b) == a[0] + Concat(a[1..] + b) by {
        assert (a + b)[0] == a[0] && (a + b)[1..] == a[1..] + b;
      }
      ConcatAppend(a[1..], b);
      assert a[0] + (Concat(a[1..]) + Concat(b)) == (a[0] + Concat(a[1..])) + Concat(b);
    }
  }
}
