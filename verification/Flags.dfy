/**
 * The flags passed to SwiftPM (processSwiftPMFlags and processExtraIncludeCommand in ProcessInstallDirectives.swift).
 * A `$clear` inside a directive drops all flags given before it; the search for the last one runs over reversed text.
 * The template substitution, which turns `$clear` into `id`, and shlex are parameters that may fail.
 */
module Flags {
  import opened Selection
  import opened Text
  import opened Wrappers

  /** What Python contributes: `string.Template(...).substitute` and `shlex.split`. */
  datatype Python = Python(substitute: string -> Option<string>, split: string -> Option<seq<string>>, id: string)

  function Reversed(s: string): (r: string)
    ensures |r| == |s|
    ensures forall i :: 0 <= i < |s| ==> r[i] == s[|s| - 1 - i]
  {
    seq(|s|, i requires 0 <= i < |s| => s[|s| - 1 - i])
  }

  lemma ReversedTwice(s: string)
    ensures Reversed(Reversed(s)) == s
  {
  }

  lemma ReversedTake(s: string, n: nat)
    requires n <= |s|
    ensures Reversed(Reversed(s)[..n]) == s[|s| - n..]
  {
  }

  /** An occurrence read backwards, from the far end. */
  lemma ReversedAt(s: string, p: string, k: nat)
    requires At(s, p, k)
    ensures At(Reversed(s), Reversed(p), |s| - k - |p|)
  {
    assert |p| <= |s[k..]|;
    var r, i := Reversed(s), |s| - k - |p|;
    forall j | 0 <= j < |p| ensures r[i + j] == Reversed(p)[j] {
      assert s[k + (|p| - 1 - j)] == s[k..][|p| - 1 - j] == p[|p| - 1 - j];
    }
    assert r[i..][..|p|] == Reversed(p);
  }

  /** The rightmost occurrence of `p` that starts before `n`; -1 when there is none. */
  function LastBefore(s: string, p: string, n: nat): (r: int)
    ensures r == -1 || (0 <= r < n && r + |p| <= |s| && At(s, p, r))
  {
    if n == 0 then -1 else if At(s, p, n - 1) then n - 1 else LastBefore(s, p, n - 1)
  }

  lemma {:induction false} LastBeforeIsRightmost(s: string, p: string, n: nat, j: nat)
    requires j < n && At(s, p, j)
    ensures j <= LastBefore(s, p, n)
  {
    if !At(s, p, n - 1) {
      LastBeforeIsRightmost(s, p, n - 1, j);
    }
  }

  function Last(s: string, p: string): (r: int)
    ensures r == -1 || (0 <= r && r + |p| <= |s| && At(s, p, r))
  {
    LastBefore(s, p, |s| + 1)
  }

  /** Any occurrence is found, or one further right. */
  lemma LastIsRightmost(s: string, p: string, j: nat)
    requires At(s, p, j)
    ensures j <= Last(s, p)
  {
    LastBeforeIsRightmost(s, p, |s| + 1, j);
  }

  /** An occurrence in the reversed text is one in the text. */
  lemma ReversedBack(s: string, p: string, k: nat)
    requires At(Reversed(s), Reversed(p), k)
    ensures k + |p| <= |s| && At(s, p, |s| - k - |p|)
  {
    assert |Reversed(p)| <= |Reversed(s)[k..]|;
    ReversedAt(Reversed(s), Reversed(p), k);
    ReversedTwice(s);
    ReversedTwice(p);
  }

  /** The leftmost occurrence in the reversed text is the rightmost one in the text. */
  lemma ReversedSearch(s: string, p: string)
    ensures Find(Reversed(s), Reversed(p)) == if Last(s, p) == -1 then -1 else |s| - Last(s, p) - |p|
  {
    var k, last := Find(Reversed(s), Reversed(p)), Last(s, p);
    if k != -1 {
      FindIsAt(Reversed(s), Reversed(p));
      ReversedBack(s, p, k);
      LastIsRightmost(s, p, |s| - k - |p|);
    }
    if last != -1 {
      ReversedAt(s, p, last);
      FindIsLeftmost(Reversed(s), Reversed(p), |s| - last - |p|);
    }
  }

  predicate Clears(py: Python, processedLine: string) {
    Last(processedLine, py.id) != -1
  }

  /** All of the text, or what follows the last occurrence of `id`. */
  function Rest(py: Python, processedLine: string): string {
    var last := Last(processedLine, py.id);
    if last == -1 then processedLine else processedLine[last + |py.id|..]
  }

  /** Cutting the reversed text where the search stops leaves the rest. */
  lemma CutIsRest(py: Python, processedLine: string)
    ensures var idRange := Find(Reversed(processedLine), Reversed(py.id));
      if idRange == -1 then !Clears(py, processedLine)
      else Clears(py, processedLine) && Reversed(Reversed(processedLine)[..idRange]) == Rest(py, processedLine)
  {
    var idRange := Find(Reversed(processedLine), Reversed(py.id));
    ReversedSearch(processedLine, py.id);
    if idRange != -1 {
      ReversedTake(processedLine, idRange);
    }
  }

  /** What `%install-swiftpm-flags` appends: nothing when the template or shlex rejects its text. */
  function Lexed(py: Python, restOfLine: string): seq<string> {
    match py.substitute(restOfLine)
    case None => []
    case Some(processedLine) =>
      match py.split(Rest(py, processedLine))
      case None => []
      case Some(flags) => flags
  }

  predicate IsInclude(dir: string) {
    "-I" <= dir
  }

  function Includes(dirs: seq<string>): seq<string> {
    if dirs == [] then []
    else
      var last := dirs[|dirs| - 1];
      Includes(dirs[..|dirs| - 1]) + if IsInclude(last) then [last] else []
  }

  /** A directive that touches the flags, with the text behind it, or with what its command printed, if it succeeded. */
  datatype Directive = SwiftPMFlags(restOfLine: string) | ExtraInclude(stdout: Option<string>)

  predicate IsClear(py: Python, d: Directive) {
    d.SwiftPMFlags? && py.substitute(d.restOfLine).Some? && Clears(py, py.substitute(d.restOfLine).value)
  }

  function Piece(py: Python, d: Directive): seq<string> {
    match d
    case SwiftPMFlags(restOfLine) => Lexed(py, restOfLine)
    case ExtraInclude(stdout) =>
      if stdout.None? || py.split(stdout.value).None? then [] else Includes(py.split(stdout.value).value)
  }

  /** The directive does not throw. */
  predicate Accepted(py: Python, d: Directive) {
    match d
    case SwiftPMFlags(restOfLine) =>
      py.substitute(restOfLine).Some? && py.split(Rest(py, py.substitute(restOfLine).value)).Some?
    case ExtraInclude(stdout) => stdout.Some? && py.split(stdout.value).Some?
  }

  function Step(py: Python, flags: seq<string>, d: Directive): seq<string> {
    (if IsClear(py, d) then [] else flags) + Piece(py, d)
  }

  class PackageContext {
    var swiftPMFlags: seq<string>

    constructor ()
      ensures swiftPMFlags == []
    {
      swiftPMFlags := [];
    }

    method ProcessSwiftPMFlags(py: Python, restOfLine: string) returns (accepted: bool)
      modifies this
      ensures accepted == Accepted(py, SwiftPMFlags(restOfLine))
      ensures swiftPMFlags == Step(py, old(swiftPMFlags), SwiftPMFlags(restOfLine))
    {
      var substituted := py.substitute(restOfLine);
      if substituted.None? {
        return false;
      }
      var processedLine := substituted.value;
      var reversedLine := Reversed(processedLine);
      var idRange := Find(reversedLine, Reversed(py.id));
      CutIsRest(py, processedLine);
      if idRange != -1 {
        processedLine := Reversed(reversedLine[..idRange]);
        swiftPMFlags := [];
      }
      var flags := py.split(processedLine);
      if flags.None? {
        return false;
      }
      swiftPMFlags := swiftPMFlags + flags.value;
      return true;
    }

    method ProcessExtraIncludeCommand(py: Python, stdout: Option<string>) returns (accepted: bool)
      modifies this
      ensures accepted == Accepted(py, ExtraInclude(stdout))
      ensures swiftPMFlags == Step(py, old(swiftPMFlags), ExtraInclude(stdout))
    {
      if stdout.None? {
        return false;
      }
      var includeDirs := py.split(stdout.value);
      if includeDirs.None? {
        return false;
      }
      var dirs := includeDirs.value;
      for i := 0 to |dirs|
        invariant swiftPMFlags == old(swiftPMFlags) + Includes(dirs[..i])
      {
        assert dirs[..i + 1][..i] == dirs[..i];
        if IsInclude(dirs[i]) {
          swiftPMFlags := swiftPMFlags + [dirs[i]];
        }
      }
      assert dirs[..|dirs|] == dirs;
      return true;
    }
  }

  // What one directive does.

  /** Nowhere in the text does `$clear` stand for anything. */
  ghost predicate Clearless(py: Python, text: string) {
    forall k :: !At(text, py.id, k)
  }

  /** This text is what follows the last `$clear` of `line`. */
  ghost predicate BehindLastClear(py: Python, line: string, rest: string) {
    && |rest| + |py.id| <= |line| && line[|line| - |rest|..] == rest && At(line, py.id, |line| - |rest| - |py.id|)
    && forall k :: |line| - |rest| - |py.id| < k ==> !At(line, py.id, k)
  }

  /** What the lexer makes of a text is added, or nothing if it rejects it. */
  function Lexes(py: Python, text: string): seq<string> {
    if py.split(text).Some? then py.split(text).value else []
  }

  /** Flags without a `$clear` are added to those there are; a lexer's error adds none. */
  lemma FlagsAreAdded(py: Python, flags: seq<string>, restOfLine: string, line: string)
    requires py.substitute(restOfLine) == Some(line) && Clearless(py, line)
    ensures Step(py, flags, SwiftPMFlags(restOfLine)) == flags + Lexes(py, line)
    ensures Accepted(py, SwiftPMFlags(restOfLine)) <==> py.split(line).Some?
  {
    assert Last(line, py.id) == -1;
  }

  /** With one, they replace them, and what stands before it counts for nothing. */
  lemma FlagsAreReplaced(py: Python, flags: seq<string>, restOfLine: string, line: string, rest: string)
    requires py.substitute(restOfLine) == Some(line) && BehindLastClear(py, line, rest)
    ensures Step(py, flags, SwiftPMFlags(restOfLine)) == Lexes(py, rest)
    ensures Accepted(py, SwiftPMFlags(restOfLine)) <==> py.split(rest).Some?
  {
    LastIsRightmost(line, py.id, |line| - |rest| - |py.id|);
    assert [] + Lexes(py, rest) == Lexes(py, rest);
  }

  lemma TemplateErrorKeepsFlags(py: Python, flags: seq<string>, restOfLine: string)
    requires py.substitute(restOfLine).None?
    ensures Step(py, flags, SwiftPMFlags(restOfLine)) == flags && !Accepted(py, SwiftPMFlags(restOfLine))
  {
    assert flags + [] == flags;
  }

  /** The words at these positions, and only they, begin with `-I`. */
  ghost predicate IncludeWords(words: seq<string>, index: seq<nat>) {
    Rising(index, |words|) && forall i: nat :: i < |words| ==> (i in index <==> exists path :: words[i] == "-I" + path)
  }

  lemma IncludeByWord(word: string)
    ensures IsInclude(word) <==> exists path :: word == "-I" + path
  {
    if IsInclude(word) {
      assert word == "-I" + word[2..];
    }
  }

  lemma OneMoreWord(words: seq<string>, word: string, index: seq<nat>)
    requires IncludeWords(words, index)
    ensures IncludeWords(words + [word], index + if IsInclude(word) then [|words|] else [])
  {
    PickOn(index, |words|, IsInclude(word));
    IncludeByWord(word);
  }

  lemma {:induction false} IncludesAre(words: seq<string>) returns (index: seq<nat>)
    ensures IncludeWords(words, index) && |Includes(words)| == |index|
    ensures forall k :: 0 <= k < |index| ==> Includes(words)[k] == words[index[k]]
  {
    if words == [] {
      return [];
    }
    var n := |words| - 1;
    var before := IncludesAre(words[..n]);
    assert words == words[..n] + [words[n]];
    OneMoreWord(words[..n], words[n], before);
    index := before + if IsInclude(words[n]) then [n] else [];
  }

  /** The words that a successful command printed and that begin with `-I` are added, in order; a failure adds none. */
  lemma IncludesAreAdded(py: Python, flags: seq<string>, stdout: Option<string>)
    returns (index: seq<nat>, added: seq<string>)
    ensures Step(py, flags, ExtraInclude(stdout)) == flags + added && |added| == |index|
    ensures Accepted(py, ExtraInclude(stdout)) <==> stdout.Some? && py.split(stdout.value).Some?
    ensures if stdout.None? || py.split(stdout.value).None? then added == []
      else
        var words := py.split(stdout.value).value;
        IncludeWords(words, index) && forall k :: 0 <= k < |index| ==> added[k] == words[index[k]]
  {
    added, index := Piece(py, ExtraInclude(stdout)), [];
    if stdout.Some? && py.split(stdout.value).Some? {
      index := IncludesAre(py.split(stdout.value).value);
    }
  }

  // Histories.

  function After(py: Python, flags: seq<string>, ds: seq<Directive>): seq<string>
    decreases |ds|
  {
    if ds == [] then flags else After(py, Step(py, flags, ds[0]), ds[1..])
  }

  function Pieces(py: Python, ds: seq<Directive>): seq<string> {
    if ds == [] then [] else Piece(py, ds[0]) + Pieces(py, ds[1..])
  }

  ghost predicate NoneClears(py: Python, ds: seq<Directive>) {
    forall d :: d in ds ==> !IsClear(py, d)
  }

  lemma {:induction false} Accumulates(py: Python, flags: seq<string>, ds: seq<Directive>)
    requires NoneClears(py, ds)
    ensures After(py, flags, ds) == flags + Pieces(py, ds)
    decreases |ds|
  {
    if ds != [] {
      Accumulates(py, Step(py, flags, ds[0]), ds[1..]);
      assert (flags + Piece(py, ds[0])) + Pieces(py, ds[1..]) == flags + (Piece(py, ds[0]) + Pieces(py, ds[1..]));
    }
  }

  lemma {:induction false} AfterAppend(py: Python, flags: seq<string>, a: seq<Directive>, b: seq<Directive>)
    ensures After(py, flags, a + b) == After(py, After(py, flags, a), b)
    decreases |a|
  {
    if a == [] {
      assert a + b == b;
    } else {
      var next := Step(py, flags, a[0]);
      AfterAppend(py, next, a[1..], b);
      assert (a + b)[0] == a[0] && (a + b)[1..] == a[1..] + b;
      assert After(py, flags, a + b) == After(py, next, a[1..] + b);
    }
  }

  /**
   * Whatever came before it, the most recent clear decides: the flags are the pieces given since, its own included,
   * with the pieces of directives that threw missing, be it the clear's own.
   */
  lemma FlagHistory(py: Python, flags: seq<string>, before: seq<Directive>, clear: Directive, later: seq<Directive>)
    requires IsClear(py, clear) && NoneClears(py, later)
    ensures After(py, flags, before + ([clear] + later)) == Pieces(py, [clear] + later)
  {
    AfterAppend(py, flags, before, [clear] + later);
    var here := After(py, flags, before);
    assert ([clear] + later)[1..] == later;
    assert Step(py, here, clear) == Piece(py, clear);
    Accumulates(py, Piece(py, clear), later);
  }

  /** A directive that throws leaves the flags alone, unless it cleared some before throwing. */
  lemma RejectedKeepsFlags(py: Python, flags: seq<string>, d: Directive)
    requires !Accepted(py, d)
    ensures Step(py, flags, d) == flags <==> flags == [] || !IsClear(py, d)
  {
    assert Piece(py, d) == [];
  }
}
