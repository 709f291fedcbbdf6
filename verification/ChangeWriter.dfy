/** The change writer of `internal/workloaddiag`: a stream cut into lines as it arrives,
    each distinct line passed on once. Writes are byte sequences. */
module ChangeWriter {

  newtype byte = x: int | 0 <= x < 256

  type Bytes = seq<byte>

  const NL: byte := 10
  const CR: byte := 13

  // ----- Lines -----

  function NewlineFrom(s: Bytes, i: nat): (k: nat)
    requires i <= |s|
    ensures i <= k <= |s| && (k < |s| ==> s[k] == NL)
    ensures forall j :: i <= j < k ==> s[j] != NL
    decreases |s| - i
  {
    if i == |s| || s[i] == NL then i else NewlineFrom(s, i + 1)
  }

  /** Where the first newline is, or the length. */
  function FirstNewline(s: Bytes): (k: nat)
    ensures k <= |s| && NL !in s[..k] && (k < |s| ==> s[k] == NL)
  {
    NewlineFrom(s, 0)
  }

  /** The complete lines of s, each with its newline. */
  function Lines(s: Bytes): seq<Bytes>
    decreases |s|
  {
    var k := FirstNewline(s);
    if k == |s| then [] else [s[..k + 1]] + Lines(s[k + 1..])
  }

  /** What follows the last newline. */
  function Tail(s: Bytes): Bytes
    decreases |s|
  {
    var k := FirstNewline(s);
    if k == |s| then s else Tail(s[k + 1..])
  }

  function Joined(lines: seq<Bytes>): Bytes {
    if lines == [] then [] else lines[0] + Joined(lines[1..])
  }

  predicate IsLine(line: Bytes) { line != [] && line[|line| - 1] == NL && NL !in line[..|line| - 1] }

  lemma {:induction false} NotBefore<T>(s: seq<T>, k: nat, x: T)
    requires k <= |s| && x !in s[..k]
    ensures forall i :: 0 <= i < k ==> s[i] != x
  {
    forall i | 0 <= i < k ensures s[i] != x {
      assert s[..k][i] == s[i];
    }
  }

  lemma {:induction false} FirstNewlineIs(s: Bytes, k: nat)
    requires k < |s| && s[k] == NL && NL !in s[..k]
    ensures FirstNewline(s) == k
  {
    var m := FirstNewline(s);
    NotBefore(s, k, NL);
    NotBefore(s, m, NL);
  }

  lemma {:induction false} Regroup<T>(s: seq<T>, k: nat, joined: seq<T>, t: seq<T>)
    requires k <= |s| && joined + t == s[k..]
    ensures s[..k] + joined + t == s
  {
    assert s[..k] + joined + t == s[..k] + (joined + t);
  }

  lemma {:induction false} CutFirst(s: Bytes)
    requires FirstNewline(s) < |s|
    ensures var k := FirstNewline(s) + 1;
            && Lines(s) == [s[..k]] + Lines(s[k..]) && Tail(s) == Tail(s[k..])
            && Joined(Lines(s)) == s[..k] + Joined(Lines(s[k..]))
  {
    var k := FirstNewline(s) + 1;
    assert Lines(s) == [s[..k]] + Lines(s[k..]);
    assert Lines(s)[1..] == Lines(s[k..]);
  }

  lemma {:induction false} LinesRejoin(s: Bytes)
    ensures Joined(Lines(s)) + Tail(s) == s
    decreases |s|
  {
    var k := FirstNewline(s) + 1;
    if k <= |s| {
      var rest := s[k..];
      LinesRejoin(rest);
      Regroup(s, k, Joined(Lines(rest)), Tail(rest));
      CutFirst(s);
    }
  }

  lemma {:induction false} FirstIsLine(s: Bytes)
    requires FirstNewline(s) < |s|
    ensures IsLine(s[..FirstNewline(s) + 1])
  {
    var k := FirstNewline(s);
    assert s[..k + 1][..k] == s[..k];
  }

  lemma {:induction false} NothingToCut(s: Bytes)
    requires FirstNewline(s) == |s|
    ensures Lines(s) == [] && Tail(s) == s && NL !in s
  {
    assert s[..|s|] == s;
  }

  /** Cutting loses nothing, and every piece is a line but the tail. */
  lemma {:induction false} LinesDecompose(s: Bytes)
    ensures Joined(Lines(s)) + Tail(s) == s
    ensures NL !in Tail(s) && forall i :: 0 <= i < |Lines(s)| ==> IsLine(Lines(s)[i])
    decreases |s|
  {
    LinesRejoin(s);
    var k := FirstNewline(s) + 1;
    if k <= |s| {
      LinesDecompose(s[k..]);
      FirstIsLine(s);
      CutFirst(s);
    } else {
      NothingToCut(s);
    }
  }

  /** There is only one way to cut: any lines followed by a newline-free rest are the lines
      and the tail. */
  lemma {:induction false} LinesOfJoined(lines: seq<Bytes>, rest: Bytes)
    requires NL !in rest && forall i :: 0 <= i < |lines| ==> IsLine(lines[i])
    ensures Lines(Joined(lines) + rest) == lines && Tail(Joined(lines) + rest) == rest
  {
    var s := Joined(lines) + rest;
    if lines == [] {
      assert s == rest;
      assert forall i :: 0 <= i < |rest| ==> rest[i] in rest;
    } else {
      var line, more := lines[0], Joined(lines[1..]) + rest;
      assert s == line + more;
      assert s[..|line| - 1] == line[..|line| - 1];
      FirstNewlineIs(s, |line| - 1);
      assert s[..|line|] == line && s[|line|..] == more;
      LinesOfJoined(lines[1..], rest);
    }
  }

  lemma {:induction false} FirstNewlineOfLonger(a: Bytes, b: Bytes)
    requires FirstNewline(a) < |a|
    ensures FirstNewline(a + b) == FirstNewline(a)
  {
    var k := FirstNewline(a);
    assert (a + b)[..k] == a[..k];
    FirstNewlineIs(a + b, k);
  }

  lemma {:induction false} TakeOfLonger<T>(a: seq<T>, b: seq<T>, k: nat)
    requires k <= |a|
    ensures (a + b)[..k] == a[..k] && (a + b)[k..] == a[k..] + b
  {
  }

  lemma {:induction false} Associative<T>(a: seq<T>, b: seq<T>, c: seq<T>)
    ensures a + (b + c) == a + b + c
  {
  }

  /** What has been cut stays cut: later bytes only extend the tail. */
  lemma {:induction false} LinesAppend(a: Bytes, b: Bytes)
    ensures Lines(a + b) == Lines(a) + Lines(Tail(a) + b)
    ensures Tail(a + b) == Tail(Tail(a) + b)
    decreases |a|
  {
    var k := FirstNewline(a) + 1;
    if k > |a| {
      assert Lines(a) == [] && Tail(a) == a;
      assert Lines(a) + Lines(a + b) == Lines(a + b);
    } else {
      FirstNewlineOfLonger(a, b);
      CutFirst(a);
      CutFirst(a + b);
      TakeOfLonger(a, b, k);
      LinesAppend(a[k..], b);
      Associative([a[..k]], Lines(a[k..]), Lines(Tail(a) + b));
    }
  }

  // ----- Recording -----

  function TrimRight(line: Bytes): Bytes {
    if line != [] && (line[|line| - 1] == CR || line[|line| - 1] == NL) then TrimRight(line[..|line| - 1]) else line
  }

  predicate IsLineEnd(b: byte) { b == 13 || b == 10 }

  /** What is left of a line is its longest beginning that does not end in CR or LF. */
  lemma {:induction false} TrimRightMeaning(line: Bytes, kept: Bytes)
    ensures kept == TrimRight(line) <==>
              && kept <= line && (forall i :: |kept| <= i < |line| ==> IsLineEnd(line[i]))
              && (kept != [] ==> !IsLineEnd(kept[|kept| - 1]))
  {
    if line != [] && IsLineEnd(line[|line| - 1]) {
      TrimRightMeaning(line[..|line| - 1], kept);
    }
  }

  /** How many bytes of white space s begins with: UTF-8 for the characters Go calls space. */
  function LeadingSpace(s: Bytes): (n: nat)
    ensures n <= |s|
  {
    if s == [] then 0
    else if 9 <= s[0] <= 13 || s[0] == 32 then 1
    else if |s| >= 2 && s[0] == 0xC2 && (s[1] == 0x85 || s[1] == 0xA0) then 2
    else if |s| >= 3 && s[0] == 0xE1 && s[1] == 0x9A && s[2] == 0x80 then 3
    else if |s| >= 3 && s[0] == 0xE2 && s[1] == 0x80 &&
      (0x80 <= s[2] <= 0x8A || s[2] == 0xA8 || s[2] == 0xA9 || s[2] == 0xAF) then 3
    else if |s| >= 3 && s[0] == 0xE2 && s[1] == 0x81 && s[2] == 0x9F then 3
    else if |s| >= 3 && s[0] == 0xE3 && s[1] == 0x80 && s[2] == 0x80 then 3
    else 0
  }

  /** Nothing is left of the line once white space is trimmed. */
  predicate Blank(s: Bytes)
    decreases |s|
  {
    s == [] || (LeadingSpace(s) > 0 && Blank(s[LeadingSpace(s)..]))
  }

  /** The white space of Unicode, by code point. */
  predicate IsSpace(c: int) {
    || 0x9 <= c <= 0xD || c == 0x20 || c == 0x85 || c == 0xA0 || c == 0x1680
    || 0x2000 <= c <= 0x200A || c == 0x2028 || c == 0x2029 || c == 0x202F || c == 0x205F || c == 0x3000
  }

  /** UTF-8, section 3 of RFC 3629, for code points of up to three bytes. */
  function Encoded(c: int): (r: Bytes)
    requires 0 <= c < 0x10000
    ensures 1 <= |r| <= 3
  {
    if c < 0x80 then [c as byte]
    else if c < 0x800 then [(0xC0 + c / 0x40) as byte, (0x80 + c % 0x40) as byte]
    else [(0xE0 + c / 0x1000) as byte, (0x80 + c / 0x40 % 0x40) as byte, (0x80 + c % 0x40) as byte]
  }

  function Spelled(cs: seq<int>): Bytes
    requires forall c :: c in cs ==> IsSpace(c)
  {
    if cs == [] then []
    else
      assert cs[0] in cs && IsSpace(cs[0]);
      Encoded(cs[0]) + Spelled(cs[1..])
  }

  /** What s begins with, when it begins with white space. */
  lemma {:induction false} LeadingSpaceIs(s: Bytes) returns (c: int)
    requires LeadingSpace(s) > 0
    ensures IsSpace(c) && Encoded(c) == s[..LeadingSpace(s)]
  {
    var n := LeadingSpace(s);
    if n == 1 {
      c := s[0] as int;
      assert s[..1] == [s[0]];
    } else if n == 2 {
      c := s[1] as int;
      assert s[..2] == [s[0], s[1]];
    } else {
      c := (s[0] as int - 0xE0) * 0x1000 + (s[1] as int - 0x80) * 0x40 + (s[2] as int - 0x80);
      assert s[..3] == [s[0], s[1], s[2]];
    }
  }

  lemma {:induction false} LeadingSpaceOf(c: int, rest: Bytes)
    requires IsSpace(c)
    ensures LeadingSpace(Encoded(c) + rest) == |Encoded(c)|
  {
    var s := Encoded(c) + rest;
    assert forall i :: 0 <= i < |Encoded(c)| ==> s[i] == Encoded(c)[i];
  }

  /** Blank are exactly the lines that spell out nothing but white space. */
  lemma {:induction false} BlankMeaning(s: Bytes)
    ensures Blank(s) <==> exists cs: seq<int> :: (forall c :: c in cs ==> IsSpace(c)) && s == Spelled(cs)
    decreases |s|
  {
    if Blank(s) {
      var cs := BlankSpells(s);
    }
    if cs: seq<int> :| (forall c :: c in cs ==> IsSpace(c)) && s == Spelled(cs) {
      SpelledIsBlank(cs);
    }
  }

  lemma {:induction false} BlankSpells(s: Bytes) returns (cs: seq<int>)
    requires Blank(s)
    ensures (forall c :: c in cs ==> IsSpace(c)) && s == Spelled(cs)
    decreases |s|
  {
    cs := [];
    if s != [] {
      var n := LeadingSpace(s);
      var c := LeadingSpaceIs(s);
      var rest := BlankSpells(s[n..]);
      cs := [c] + rest;
      assert cs[1..] == rest;
      assert s == s[..n] + s[n..];
    }
  }

  lemma {:induction false} SpelledIsBlank(cs: seq<int>)
    requires forall c :: c in cs ==> IsSpace(c)
    ensures Blank(Spelled(cs))
  {
    if cs != [] {
      assert cs[0] in cs && forall c :: c in cs[1..] ==> c in cs;
      var first, rest := Encoded(cs[0]), Spelled(cs[1..]);
      SpelledIsBlank(cs[1..]);
      LeadingSpaceOf(cs[0], rest);
      assert (first + rest)[|first|..] == rest;
    }
  }

  /** The trimmed lines worth recording, in order, repeats included. */
  function Kept(lines: seq<Bytes>): seq<Bytes> {
    if lines == [] then []
    else
      var line := TrimRight(lines[|lines| - 1]);
      Kept(lines[..|lines| - 1]) + if Blank(line) then [] else [line]
  }

  function Distinct(lines: seq<Bytes>): seq<Bytes> {
    if lines == [] then []
    else
      var before, line := Distinct(lines[..|lines| - 1]), lines[|lines| - 1];
      if line in before then before else before + [line]
  }

  /** The lines passed on once one more has been read. */
  function Recorded(emitted: seq<Bytes>, raw: Bytes): seq<Bytes> {
    var line := TrimRight(raw);
    if Blank(line) || line in emitted then emitted else emitted + [line]
  }

  lemma {:induction false} RecordStep(lines: seq<Bytes>, raw: Bytes)
    ensures Distinct(Kept(lines + [raw])) == Recorded(Distinct(Kept(lines)), raw)
  {
    var kept, line := Kept(lines), TrimRight(raw);
    assert (lines + [raw])[..|lines|] == lines;
    if Blank(line) {
      assert Kept(lines + [raw]) == kept + [] == kept;
    } else {
      assert Kept(lines + [raw]) == kept + [line];
      assert (kept + [line])[..|kept|] == kept;
    }
  }

  function FirstIndex(lines: seq<Bytes>, line: Bytes): (i: nat)
    requires line in lines
    ensures i < |lines| && lines[i] == line && line !in lines[..i]
  {
    if lines[0] == line then 0 else
      assert lines == [lines[0]] + lines[1..];
      1 + FirstIndex(lines[1..], line)
  }

  lemma {:induction false} FirstIndexIs(lines: seq<Bytes>, line: Bytes, k: nat)
    requires k < |lines| && lines[k] == line && line !in lines[..k]
    ensures FirstIndex(lines, line) == k
  {
    var m := FirstIndex(lines, line);
    NotBefore(lines, k, line);
    NotBefore(lines, m, line);
  }

  /** Each line once, in the order of first appearance, none missing. */
  lemma {:induction false} DistinctMeaning(lines: seq<Bytes>)
    ensures forall line :: line in Distinct(lines) <==> line in lines
    ensures forall i, j :: 0 <= i < j < |Distinct(lines)| ==>
      Distinct(lines)[i] in lines && Distinct(lines)[j] in lines
      && FirstIndex(lines, Distinct(lines)[i]) < FirstIndex(lines, Distinct(lines)[j])
  {
    if lines != [] {
      var init, last := lines[..|lines| - 1], lines[|lines| - 1];
      DistinctMeaning(init);
      assert lines == init + [last];
      var d := Distinct(lines);
      forall i | 0 <= i < |d| && d[i] in init
        ensures d[i] in lines && FirstIndex(lines, d[i]) == FirstIndex(init, d[i])
      {
        var k := FirstIndex(init, d[i]);
        assert lines[..k] == init[..k];
        FirstIndexIs(lines, d[i], k);
      }
      if last !in init { FirstIndexIs(lines, last, |init|); }
      assert forall i :: 0 <= i < |Distinct(init)| ==> d[i] == Distinct(init)[i] && d[i] in Distinct(init);
    }
  }

  lemma {:induction false} FirstLine(done: seq<Bytes>, s: Bytes)
    requires FirstNewline(s) < |s|
    ensures var k := FirstNewline(s);
      done + Lines(s) == (done + [s[..k + 1]]) + Lines(s[k + 1..]) && Tail(s) == Tail(s[k + 1..])
  {
    var k := FirstNewline(s);
    assert done + ([s[..k + 1]] + Lines(s[k + 1..])) == (done + [s[..k + 1]]) + Lines(s[k + 1..]);
  }

  /** What a writer has passed on once it has been written s. */
  function Report(s: Bytes): seq<Bytes> { Distinct(Kept(Lines(s))) }

  /** What is passed on: the lines of the stream, trimmed, but for those that trim to nothing but
      white space. */
  lemma {:induction false} ReportMeaning(s: Bytes, line: Bytes)
    ensures line in Report(s) <==> !Blank(line) && exists raw :: raw in Lines(s) && line == TrimRight(raw)
  {
    DistinctMeaning(Kept(Lines(s)));
    KeptMeaning(Lines(s), line);
  }

  lemma {:induction false} KeptMeaning(lines: seq<Bytes>, line: Bytes)
    ensures line in Kept(lines) <==> !Blank(line) && exists raw :: raw in lines && line == TrimRight(raw)
  {
    if lines != [] {
      var init, last := lines[..|lines| - 1], lines[|lines| - 1];
      KeptMeaning(init, line);
      assert lines == init + [last] && last in lines;
    }
  }

  class Writer {
    var seen: set<Bytes>
    var partial: Bytes
    /** What emit has been called with, in order. */
    var emitted: seq<Bytes>
    ghost var written: Bytes

    ghost predicate Valid()
      reads this
    {
      partial == Tail(written) && emitted == Report(written) && seen == (set line | line in emitted)
    }

    constructor ()
      ensures Valid() && written == []
    {
      seen, partial, emitted, written := {}, [], [], [];
    }

    /** However the stream is chunked, the state afterwards is that of the whole stream. */
    method Write(p: Bytes) returns (n: nat)
      requires Valid()
      modifies this
      ensures Valid() && written == old(written) + p && n == |p|
    {
      ghost var stream := written + p;
      ghost var done := Lines(written);
      LinesAppend(written, p);
      partial := partial + p;
      var whole := true;
      while whole
        invariant done + Lines(partial) == Lines(stream) && Tail(partial) == Tail(stream)
        invariant emitted == Distinct(Kept(done)) && seen == (set line | line in emitted)
        invariant !whole ==> done == Lines(stream)
        invariant written == old(written)
        decreases whole, |partial|
      {
        // ReadString: up to and including a newline, or everything and an error.
        var k := FirstNewline(partial);
        if k == |partial| {
          whole := false;
          NothingToCut(partial);
          assert done + [] == done;
        } else {
          var line := partial[..k + 1];
          FirstLine(done, partial);
          partial := partial[k + 1..];
          Record(line, done);
          done := done + [line];
        }
      }
      written := stream;
      n := |p|;
    }

    method Record(raw: Bytes, ghost lines: seq<Bytes>)
      requires emitted == Distinct(Kept(lines)) && seen == (set line | line in emitted)
      modifies this`seen, this`emitted
      ensures emitted == Distinct(Kept(lines + [raw])) && seen == (set line | line in emitted)
    {
      var line := TrimRight(raw);
      RecordStep(lines, raw);
      if Blank(line) || line in seen {
        return;
      }
      seen := seen + {line};
      emitted := emitted + [line];
    }
  }

  // ----- Chunking -----

  /** The writer's state, and the state after one more write, without reference to what was
      written before. */
  datatype State = State(partial: Bytes, emitted: seq<Bytes>)

  function Continue(emitted: seq<Bytes>, lines: seq<Bytes>): seq<Bytes> {
    if lines == [] then emitted else Recorded(Continue(emitted, lines[..|lines| - 1]), lines[|lines| - 1])
  }

  function Feed(s: State, p: Bytes): State {
    State(Tail(s.partial + p), Continue(s.emitted, Lines(s.partial + p)))
  }

  function FeedAll(chunks: seq<Bytes>): State {
    if chunks == [] then State([], []) else Feed(FeedAll(chunks[..|chunks| - 1]), chunks[|chunks| - 1])
  }

  function Concat(chunks: seq<Bytes>): Bytes {
    if chunks == [] then [] else Concat(chunks[..|chunks| - 1]) + chunks[|chunks| - 1]
  }

  lemma {:induction false} ContinueAppend(emitted: seq<Bytes>, a: seq<Bytes>, b: seq<Bytes>)
    ensures Continue(Continue(emitted, a), b) == Continue(emitted, a + b)
  {
    if b == [] {
      assert a + b == a;
    } else {
      ContinueAppend(emitted, a, b[..|b| - 1]);
      assert (a + b)[..|a + b| - 1] == a + b[..|b| - 1];
    }
  }

  lemma {:induction false} ContinueFromNothing(lines: seq<Bytes>)
    ensures Continue([], lines) == Distinct(Kept(lines))
  {
    if lines != [] {
      var init, raw := lines[..|lines| - 1], lines[|lines| - 1];
      ContinueFromNothing(init);
      RecordStep(init, raw);
      assert lines == init + [raw];
    }
  }

  lemma {:induction false} ContinueIsDistinct(before: seq<Bytes>, lines: seq<Bytes>)
    ensures Continue(Distinct(Kept(before)), lines) == Distinct(Kept(before + lines))
  {
    ContinueFromNothing(before);
    ContinueAppend([], before, lines);
    ContinueFromNothing(before + lines);
  }

  /** Any sequence of writes leaves the state their concatenation determines; so any two
      sequences with the same concatenation emit the same lines and buffer the same tail. */
  lemma {:induction false} ChunkingDoesNotMatter(chunks: seq<Bytes>)
    ensures FeedAll(chunks) == State(Tail(Concat(chunks)), Report(Concat(chunks)))
  {
    if chunks != [] {
      var init, last := chunks[..|chunks| - 1], chunks[|chunks| - 1];
      ChunkingDoesNotMatter(init);
      LinesAppend(Concat(init), last);
      ContinueIsDistinct(Lines(Concat(init)), Lines(Tail(Concat(init)) + last));
    }
  }
}
