/**
 * Stack frames passed from C++ (get_pretty_stack_trace in LLDBProcess.cpp) to Swift (prettyPrintStackTrace in
 * FormatErrors.swift) as blocks of memory: line, column, then three counted strings padded to four bytes.
 */
module StackFrame {
  import opened Framing
  import opened Selection

  const WORD: nat := 4
  const UINT32_LIMIT: nat := 0x1_0000_0000
  const INT32_LIMIT: nat := 0x8000_0000

  type Bytes = seq<byte>

  /** `~3 & (n + 3)`. */
  function Align(n: nat): nat {
    n + 3 - (n + 3) % 4
  }

  /** The least multiple of four that is not below `n`. */
  predicate LeastMultipleOf4(n: nat, r: nat) {
    r % 4 == 0 && n <= r && forall m: nat :: m % 4 == 0 && n <= m ==> r <= m
  }

  lemma AlignIsLeast(n: nat, r: nat)
    ensures r == Align(n) <==> LeastMultipleOf4(n, r)
  {
    assert Align(n) % 4 == 0;
  }

  /** The same on 64-bit words, where the mask is taken literally and the sum does not wrap. */
  lemma AlignOfWords(n: bv64)
    requires n <= 0xFFFF_FFFF_FFFF_FFFC
    ensures (!3 & (n + 3)) % 4 == 0 && n <= !3 & (n + 3) && (!3 & (n + 3)) - n < 4
  {
  }

  datatype Frame = Frame(line: nat, column: nat, callee: Bytes, file: Bytes, directory: Bytes) {
    predicate Fits() {
      && line < UINT32_LIMIT && column < UINT32_LIMIT
      && |callee| < INT32_LIMIT && |file| < INT32_LIMIT && |directory| < INT32_LIMIT
    }
  }

  // Reading.

  /** `s` occupies `bs` from offset `at`: its count, its bytes, and padding of any content. */
  ghost predicate ComponentAt(bs: Bytes, at: nat, s: Bytes) {
    && |s| < INT32_LIMIT
    && at + WORD + Align(|s|) <= |bs|
    && bs[at..at + WORD] == LittleEndian(|s|, WORD)
    && bs[at + WORD..at + WORD + |s|] == s
  }

  ghost predicate HeaderAt(bs: Bytes, line: nat, column: nat) {
    2 * WORD <= |bs| && bs[..WORD] == LittleEndian(line, WORD) && bs[WORD..2 * WORD] == LittleEndian(column, WORD)
  }

  /** Where the file's name, the directory's name and the block end. */
  function FileOffset(f: Frame): nat { 2 * WORD + WORD + Align(|f.callee|) }

  function DirectoryOffset(f: Frame): nat { FileOffset(f) + WORD + Align(|f.file|) }

  function SizeOf(f: Frame): nat { DirectoryOffset(f) + WORD + Align(|f.directory|) }

  ghost predicate CalleeIn(bs: Bytes, f: Frame) {
    HeaderAt(bs, f.line, f.column) && ComponentAt(bs, 2 * WORD, f.callee)
  }

  ghost predicate FileIn(bs: Bytes, f: Frame) {
    CalleeIn(bs, f) && ComponentAt(bs, FileOffset(f), f.file)
  }

  ghost predicate FrameIn(bs: Bytes, f: Frame) {
    f.Fits() && |bs| == SizeOf(f) && FileIn(bs, f) && ComponentAt(bs, DirectoryOffset(f), f.directory)
  }

  lemma WordRange()
    ensures Radix(WORD) == UINT32_LIMIT
  {
    assert Radix(2) == 0x1_0000;
  }

  /** A 32-bit load. */
  method ReadWord(block: array<byte>, at: nat, ghost n: nat) returns (value: nat)
    requires n < UINT32_LIMIT && at + WORD <= block.Length && block[..][at..at + WORD] == LittleEndian(n, WORD)
    ensures value == n
  {
    WordRange();
    DecodeEncodeCount(n, WORD);
    assert block[at..at + WORD] == block[..][at..at + WORD];
    value := FromLittleEndian(block[at..at + WORD]);
  }

  /** `extractComponent`: no access leaves the block, and the stream ends up behind the padding. */
  method ExtractComponent(block: array<byte>, at: nat, ghost s: Bytes) returns (output: Bytes, stream: nat)
    requires ComponentAt(block[..], at, s)
    ensures output == s
    ensures stream == at + WORD + Align(|s|) && stream <= block.Length
  {
    var count := ReadWord(block, at, |s|);
    stream := at + WORD;
    assert block[stream..stream + count] == block[..][stream..stream + count];
    output := block[stream..stream + count];
    stream := stream + Align(count);
  }

  method ReadHeader(block: array<byte>, ghost f: Frame) returns (line: nat, column: nat)
    requires f.Fits() && HeaderAt(block[..], f.line, f.column)
    ensures line == f.line && column == f.column
  {
    assert block[..][..WORD] == block[..][0..WORD];
    line := ReadWord(block, 0, f.line);
    column := ReadWord(block, WORD, f.column);
  }

  lemma PartsOf(bs: Bytes, f: Frame)
    requires FrameIn(bs, f)
    ensures f.Fits() && HeaderAt(bs, f.line, f.column) && |bs| == DirectoryOffset(f) + WORD + Align(|f.directory|)
    ensures ComponentAt(bs, 2 * WORD, f.callee) && ComponentAt(bs, FileOffset(f), f.file)
    ensures ComponentAt(bs, DirectoryOffset(f), f.directory)
  {
  }

  method ReadStrings(block: array<byte>, ghost f: Frame) returns (callee: Bytes, file: Bytes, directory: Bytes, stream: nat)
    requires ComponentAt(block[..], 2 * WORD, f.callee) && ComponentAt(block[..], FileOffset(f), f.file)
    requires ComponentAt(block[..], DirectoryOffset(f), f.directory)
    ensures callee == f.callee && file == f.file && directory == f.directory
    ensures stream == DirectoryOffset(f) + WORD + Align(|f.directory|)
  {
    callee, stream := ExtractComponent(block, 2 * WORD, f.callee);
    file, stream := ExtractComponent(block, stream, f.file);
    directory, stream := ExtractComponent(block, stream, f.directory);
  }

  /** The body of the loop over frames: what C++ wrote is what Swift reads, to the last byte of the block. */
  method Decode(block: array<byte>, ghost f: Frame) returns (frame: Frame, stream: nat)
    requires FrameIn(block[..], f)
    ensures frame == f
    ensures stream == block.Length
  {
    PartsOf(block[..], f);
    var line, column := ReadHeader(block, f);
    var callee, file, directory;
    callee, file, directory, stream := ReadStrings(block, f);
    frame := Frame(line, column, callee, file, directory);
  }

  // Writing.

  method PutWord(block: array<byte>, at: nat, n: nat)
    requires at + WORD <= block.Length
    modifies block
    ensures block[..][at..at + WORD] == LittleEndian(n, WORD)
    ensures block[..at] == old(block[..at])
  {
    var bytes := LittleEndian(n, WORD);
    forall i | 0 <= i < WORD { block[at + i] := bytes[i]; }
    assert block[..][at..at + WORD] == bytes;
  }

  /** Count, then bytes; the padding keeps whatever the memory held, and so does all that lies before. */
  method PutComponent(block: array<byte>, at: nat, s: Bytes) returns (end: nat)
    requires |s| < INT32_LIMIT && at + WORD + Align(|s|) <= block.Length
    modifies block
    ensures end == at + WORD + Align(|s|)
    ensures ComponentAt(block[..], at, s)
    ensures block[..at] == old(block[..at])
  {
    PutWord(block, at, |s|);
    ghost var counted := block[..at + WORD];
    assert counted[at..] == LittleEndian(|s|, WORD) && counted[..at] == old(block[..at]);
    var start := at + WORD;
    forall i | 0 <= i < |s| { block[start + i] := s[i]; }
    assert block[..start] == counted;
    assert block[..][at..start] == counted[at..] && block[..at] == counted[..at];
    assert block[..][start..start + |s|] == s;
    end := start + Align(|s|);
  }

  lemma SliceKept(before: Bytes, after: Bytes, lo: nat, hi: nat, end: nat)
    requires lo <= hi <= end <= |before| && end <= |after| && after[..end] == before[..end]
    ensures after[lo..hi] == before[lo..hi]
  {
    forall k | lo <= k < hi ensures after[k] == before[k] {
      assert after[..end][k] == before[..end][k];
    }
  }

  /** What comes later leaves a component alone. */
  lemma ComponentKept(before: Bytes, after: Bytes, at: nat, s: Bytes, end: nat)
    requires |before| == |after| && ComponentAt(before, at, s) && at + WORD + Align(|s|) <= end <= |before|
    requires after[..end] == before[..end]
    ensures ComponentAt(after, at, s)
  {
    SliceKept(before, after, at, at + WORD, end);
    SliceKept(before, after, at + WORD, at + WORD + |s|, end);
  }

  lemma CalleeKept(before: Bytes, after: Bytes, f: Frame)
    requires CalleeIn(before, f) && |before| == |after| && after[..FileOffset(f)] == before[..FileOffset(f)]
    ensures CalleeIn(after, f)
  {
    SliceKept(before, after, 0, WORD, FileOffset(f));
    assert after[..WORD] == after[0..WORD] && before[..WORD] == before[0..WORD];
    SliceKept(before, after, WORD, 2 * WORD, FileOffset(f));
    ComponentKept(before, after, 2 * WORD, f.callee, FileOffset(f));
  }

  lemma FileKept(before: Bytes, after: Bytes, f: Frame)
    requires FileIn(before, f) && |before| == |after| && after[..DirectoryOffset(f)] == before[..DirectoryOffset(f)]
    ensures FileIn(after, f)
  {
    SliceKept(before, after, 0, FileOffset(f), DirectoryOffset(f));
    assert after[..FileOffset(f)] == after[0..FileOffset(f)] && before[..FileOffset(f)] == before[0..FileOffset(f)];
    CalleeKept(before, after, f);
    ComponentKept(before, after, FileOffset(f), f.file, DirectoryOffset(f));
  }

  lemma HeaderKept(before: Bytes, after: Bytes, line: nat, column: nat)
    requires HeaderAt(before, line, column) && |before| == |after| && after[..2 * WORD] == before[..2 * WORD]
    ensures HeaderAt(after, line, column)
  {
    SliceKept(before, after, 0, WORD, 2 * WORD);
    assert after[..WORD] == after[0..WORD] && before[..WORD] == before[0..WORD];
    SliceKept(before, after, WORD, 2 * WORD, 2 * WORD);
  }

  method PutHeader(block: array<byte>, line: nat, column: nat)
    requires 2 * WORD <= block.Length
    modifies block
    ensures HeaderAt(block[..], line, column)
  {
    PutWord(block, 0, line);
    ghost var first := block[..WORD];
    assert first == block[..][0..WORD];
    PutWord(block, WORD, column);
    assert block[..][..WORD] == first;
  }

  method PutCallee(desc: array<byte>, f: Frame) returns (strPtr: nat)
    requires f.Fits() && desc.Length == SizeOf(f)
    modifies desc
    ensures CalleeIn(desc[..], f) && strPtr == FileOffset(f)
  {
    PutHeader(desc, f.line, f.column);
    ghost var before := desc[..];
    strPtr := PutComponent(desc, 2 * WORD, f.callee);
    HeaderKept(before, desc[..], f.line, f.column) by { assert desc[..][..2 * WORD] == before[..2 * WORD]; }
  }

  method PutFile(desc: array<byte>, at: nat, f: Frame) returns (strPtr: nat)
    requires f.Fits() && desc.Length == SizeOf(f) && CalleeIn(desc[..], f) && at == FileOffset(f)
    modifies desc
    ensures FileIn(desc[..], f) && strPtr == DirectoryOffset(f)
  {
    ghost var before := desc[..];
    strPtr := PutComponent(desc, at, f.file);
    CalleeKept(before, desc[..], f) by { assert desc[..][..at] == before[..at]; }
  }

  method PutDirectory(desc: array<byte>, at: nat, f: Frame) returns (strPtr: nat)
    requires f.Fits() && desc.Length == SizeOf(f) && FileIn(desc[..], f) && at == DirectoryOffset(f)
    modifies desc
    ensures FrameIn(desc[..], f) && strPtr == SizeOf(f)
  {
    ghost var before := desc[..];
    strPtr := PutComponent(desc, at, f.directory);
    FileKept(before, desc[..], f) by { assert desc[..][..at] == before[..at]; }
  }

  /** One block for one frame, from memory of any content; the last offset is the size allocated. */
  method Encode(f: Frame) returns (desc: array<byte>, strPtr: nat)
    requires f.Fits()
    ensures fresh(desc) && FrameIn(desc[..], f) && strPtr == desc.Length
  {
    desc := new byte[4 + 4 + 4 + Align(|f.callee|) + 4 + Align(|f.file|) + 4 + Align(|f.directory|)];
    strPtr := PutCallee(desc, f);
    strPtr := PutFile(desc, strPtr, f);
    strPtr := PutDirectory(desc, strPtr, f);
  }

  // The frames of a thread.

  /** The bytes of a text in ASCII. */
  function Ascii(text: string): (r: Bytes)
    ensures |r| == |text| && forall i :: 0 <= i < |text| && text[i] < '\U{80}' ==> r[i] as int == text[i] as int
  {
    seq(|text|, i requires 0 <= i < |text| => (text[i] as int % 0x80) as byte)
  }

  /** The name LLDB gives to the file of a specialization of a library function. */
  const COMPILER_GENERATED: Bytes := Ascii("<compiler-generated>")

  datatype FileSpec = Invalid | Spec(name: Bytes, directory: Bytes, present: bool)

  datatype SBFrame = SBFrame(line: nat, column: nat, callee: Bytes, file: FileSpec) {
    predicate Fits() {
      && line < UINT32_LIMIT && column < UINT32_LIMIT && |callee| < INT32_LIMIT
      && (file.Spec? ==> |file.name| < INT32_LIMIT && |file.directory| < INT32_LIMIT)
    }

    /** Has source a user can look up. */
    predicate Shown() {
      file.Spec? && file.name != COMPILER_GENERATED
    }

    /** A directory is passed on only for a file that exists. */
    function Described(): Frame
      requires file.Spec?
    {
      Frame(line, column, callee, file.name, if file.present then file.directory else [])
    }
  }

  function ShownFrames(frames: seq<SBFrame>): (r: seq<Frame>)
    ensures |r| <= |frames|
  {
    if frames == [] then []
    else
      var last := frames[|frames| - 1];
      ShownFrames(frames[..|frames| - 1]) + if last.Shown() then [last.Described()] else []
  }

  /** Field by field what LLDB says of a frame; the directory only of a file that exists. */
  ghost predicate SameFrame(f: SBFrame, shown: Frame) {
    && f.file.Spec? && shown.line == f.line && shown.column == f.column
    && shown.callee == f.callee && shown.file == f.file.name
    && shown.directory == if f.file.present then f.file.directory else []
  }

  /** The positions of the frames with a valid file that is not compiler-generated. */
  ghost predicate HaveSource(frames: seq<SBFrame>, index: seq<nat>) {
    && Rising(index, |frames|)
    && forall i: nat :: i < |frames| ==>
      (i in index <==> frames[i].file.Spec? && frames[i].file.name != Ascii("<compiler-generated>"))
  }

  ghost predicate SameFrames(frames: seq<SBFrame>, shown: seq<Frame>, index: seq<nat>)
    requires Rising(index, |frames|)
  {
    |index| == |shown| && forall k :: 0 <= k < |shown| ==> SameFrame(frames[index[k]], shown[k])
  }

  /** The frames shown are, in LLDB's order, exactly those with source. */
  ghost predicate ShowsAll(frames: seq<SBFrame>, shown: seq<Frame>, index: seq<nat>) {
    HaveSource(frames, index) && SameFrames(frames, shown, index)
  }

  lemma OneMoreHasSource(front: seq<SBFrame>, f: SBFrame, index: seq<nat>)
    requires HaveSource(front, index)
    ensures HaveSource(front + [f], index + if f.Shown() then [|front|] else [])
  {
    PickOn(index, |front|, f.Shown());
  }

  lemma OneMoreIsSame(front: seq<SBFrame>, f: SBFrame, shown: seq<Frame>, index: seq<nat>)
    requires Rising(index, |front|) && SameFrames(front, shown, index)
    ensures Rising(index, |front| + 1) && SameFrames(front + [f], shown, index)
    ensures f.Shown() ==>
      Rising(index + [|front|], |front| + 1) && SameFrames(front + [f], shown + [f.Described()], index + [|front|])
  {
    RisingOn(index, |front|);
  }

  lemma {:induction false} ShownFramesAre(frames: seq<SBFrame>) returns (index: seq<nat>)
    ensures ShowsAll(frames, ShownFrames(frames), index)
  {
    if frames == [] {
      return [];
    }
    var n := |frames| - 1;
    var before := ShownFramesAre(frames[..n]);
    assert frames == frames[..n] + [frames[n]];
    OneMoreHasSource(frames[..n], frames[n], before);
    OneMoreIsSame(frames[..n], frames[n], ShownFrames(frames[..n]), before);
    index := before + if frames[n].Shown() then [n] else [];
    assert before + [] == before && ShownFrames(frames[..n]) + [] == ShownFrames(frames[..n]);
  }

  ghost predicate Describes(block: array?<byte>, f: Frame)
    reads block
  {
    block != null && FrameIn(block[..], f)
  }

  /** The first places hold one block for each of these frames. */
  ghost predicate Holds(blocks: seq<array?<byte>>, shown: seq<Frame>)
    reads blocks
  {
    |shown| <= |blocks| && forall i :: 0 <= i < |shown| ==> Describes(blocks[i], shown[i])
  }

  method Store(out: array<array?<byte>>, size: nat, f: Frame, ghost shown: seq<Frame>)
    requires f.Fits() && size == |shown| < out.Length && Holds(out[..], shown)
    modifies out
    ensures Holds(out[..], shown + [f])
  {
    var desc, strPtr := Encode(f);
    ghost var before := out[..];
    out[size] := desc;
    forall i | 0 <= i < size ensures Describes(out[i], shown[i]) {
      assert Describes(before[i], shown[i]);
    }
  }

  /** `get_pretty_stack_trace`: a block for each frame with a source, in order, within the space allocated. */
  method GetPrettyStackTrace(frames: seq<SBFrame>) returns (out: array<array?<byte>>, size: nat)
    requires forall f :: f in frames ==> f.Fits()
    ensures size == |ShownFrames(frames)|
    ensures Holds(out[..], ShownFrames(frames))
  {
    var allocatedSize := |frames|;
    out := new array?<byte>[allocatedSize];
    size := 0;
    for i := 0 to allocatedSize
      invariant fresh(out)
      invariant size == |ShownFrames(frames[..i])|
      invariant Holds(out[..], ShownFrames(frames[..i]))
    {
      assert frames[..i + 1][..i] == frames[..i];
      assert frames[i] in frames;
      if frames[i].Shown() {
        Store(out, size, frames[i].Described(), ShownFrames(frames[..i]));
        size := size + 1;
      }
    }
    assert frames[..allocatedSize] == frames;
  }

  /** The loop of `prettyPrintStackTrace`, up to the text it makes of each frame. */
  method ReadStackTrace(blocks: array<array?<byte>>, size: nat, ghost shown: seq<Frame>) returns (trace: seq<Frame>)
    requires Holds(blocks[..], shown) && size == |shown|
    ensures trace == shown
  {
    trace := [];
    for i := 0 to size
      invariant trace == shown[..i]
    {
      assert Describes(blocks[..][i], shown[i]);
      var frame, stream := Decode(blocks[i], shown[i]);
      trace := trace + [frame];
    }
  }

  /** From LLDB's frames to the frames the notebook prints: nothing added, dropped or altered on the way. */
  method PassStackTrace(frames: seq<SBFrame>) returns (trace: seq<Frame>, ghost index: seq<nat>)
    requires forall f :: f in frames ==> f.Fits()
    ensures trace == ShownFrames(frames) && ShowsAll(frames, trace, index)
  {
    var blocks, size := GetPrettyStackTrace(frames);
    trace := ReadStackTrace(blocks, size, ShownFrames(frames));
    index := ShownFramesAre(frames);
  }
}
