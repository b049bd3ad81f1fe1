/**
 * Reading a model pull: a stream of text chunks cut into lines as they arrive.
 *
 * A chunk is the decoded text of one read; what the decoder still held when the stream ended is the flush, which
 * is made of replacement characters only. How one line is parsed and judged is a parameter.
 */
module PullStream {

  datatype Verdict = Throws | Success | Other
  datatype Outcome = Completed | LineFailed | EndedEarly

  // The white space that trimming removes.
  predicate IsSpace(c: char) {
    '\t' <= c <= '\r' || c == ' ' || c == '\U{a0}' || c == '\U{1680}' || '\U{2000}' <= c <= '\U{200a}'
    || c == '\U{2028}' || c == '\U{2029}' || c == '\U{202f}' || c == '\U{205f}' || c == '\U{3000}' || c == '\U{feff}'
  }

  function TrimStart(s: string): string {
    if s != "" && IsSpace(s[0]) then TrimStart(s[1..]) else s
  }

  function TrimEnd(s: string): string {
    if s != "" && IsSpace(s[|s| - 1]) then TrimEnd(s[..|s| - 1]) else s
  }

  function Trim(s: string): string {
    TrimEnd(TrimStart(s))
  }

  predicate AllSpace(s: string) {
    forall i :: 0 <= i < |s| ==> IsSpace(s[i])
  }

  // The code points of white space.
  lemma SpacesExactly(c: char)
    ensures IsSpace(c) <==>
              c as int in {9, 10, 11, 12, 13, 32, 160, 5760, 8192, 8193, 8194, 8195, 8196, 8197, 8198, 8199, 8200, 8201,
                           8202, 8232, 8233, 8239, 8287, 12288, 65279}
  {
  }

  lemma {:induction false} TrimStartExactly(s: string) returns (before: string)
    ensures s == before + TrimStart(s) && AllSpace(before) && (TrimStart(s) == "" || !IsSpace(TrimStart(s)[0]))
  {
    if s != "" && IsSpace(s[0]) {
      var rest := TrimStartExactly(s[1..]);
      before := [s[0]] + rest;
      assert s == [s[0]] + s[1..];
    } else {
      before := "";
    }
  }

  lemma {:induction false} TrimEndExactly(s: string) returns (after: string)
    ensures s == TrimEnd(s) + after && AllSpace(after) && (TrimEnd(s) == "" || !IsSpace(TrimEnd(s)[|TrimEnd(s)| - 1]))
  {
    if s != "" && IsSpace(s[|s| - 1]) {
      var rest := TrimEndExactly(s[..|s| - 1]);
      after := rest + [s[|s| - 1]];
      assert s == s[..|s| - 1] + [s[|s| - 1]];
    } else {
      after := "";
    }
  }

  // Trimming takes white space off both ends, all of it and nothing else.
  lemma TrimExactly(s: string) returns (before: string, after: string)
    ensures s == before + Trim(s) + after && AllSpace(before) && AllSpace(after)
    ensures Trim(s) == "" || (!IsSpace(Trim(s)[0]) && !IsSpace(Trim(s)[|Trim(s)| - 1]))
  {
    before := TrimStartExactly(s);
    after := TrimEndExactly(TrimStart(s));
    assert Trim(s) != "" ==> Trim(s)[0] == TrimStart(s)[0];
    assert before + (Trim(s) + after) == before + Trim(s) + after;
  }

  // The position of the first newline, or the length if there is none.
  function Newline(s: string): (i: nat)
    ensures i <= |s| && '\n' !in s[..i] && (i < |s| ==> s[i] == '\n')
  {
    if s == "" || s[0] == '\n' then 0
    else
      assert s[..1 + Newline(s[1..])] == [s[0]] + s[1..][..Newline(s[1..])];
      1 + Newline(s[1..])
  }

  // ----- The whole text, split at once -----

  function Split(text: string): (pieces: seq<string>)
    ensures pieces != []
    decreases |text|
  {
    var i := Newline(text);
    if i == |text| then [text] else [text[..i]] + Split(text[i + 1..])
  }

  function Join(pieces: seq<string>): string
    requires pieces != []
  {
    if |pieces| == 1 then pieces[0] else pieces[0] + "\n" + Join(pieces[1..])
  }

  function Trimmed(pieces: seq<string>): seq<string> {
    if pieces == [] then []
    else (if Trim(pieces[0]) == "" then [] else [Trim(pieces[0])]) + Trimmed(pieces[1..])
  }

  function Lines(text: string): seq<string> {
    Trimmed(Split(text))
  }

  // The lines up to and including the first that throws.
  function UpToError(lines: seq<string>, judge: string -> Verdict): seq<string> {
    if lines == [] then []
    else if judge(lines[0]) == Throws then [lines[0]]
    else [lines[0]] + UpToError(lines[1..], judge)
  }

  predicate Any(lines: seq<string>, judge: string -> Verdict, v: Verdict) {
    exists i :: 0 <= i < |lines| && judge(lines[i]) == v
  }

  lemma JoinCons(first: string, rest: seq<string>)
    requires rest != []
    ensures Join([first] + rest) == first + "\n" + Join(rest)
  {
    assert ([first] + rest)[1..] == rest;
  }

  lemma CutAtNewline(text: string)
    requires Newline(text) < |text|
    ensures var i := Newline(text); text == text[..i] + "\n" + text[i + 1..]
  {
    Around(text, Newline(text));
    assert [text[Newline(text)]] == "\n";
  }

  lemma Around<T>(xs: seq<T>, i: nat)
    requires i < |xs|
    ensures xs == xs[..i] + [xs[i]] + xs[i + 1..]
  {
  }

  lemma {:induction false} SplitJoinsBack(text: string)
    ensures Join(Split(text)) == text
    decreases |text|
  {
    var i := Newline(text);
    if i < |text| {
      SplitJoinsBack(text[i + 1..]);
      JoinCons(text[..i], Split(text[i + 1..]));
      CutAtNewline(text);
    }
  }

  lemma {:induction false} PiecesHaveNoNewline(text: string, k: nat)
    requires k < |Split(text)|
    ensures '\n' !in Split(text)[k]
    decreases |text|
  {
    var i := Newline(text);
    if i == |text| {
      assert text[..i] == text;
    } else if k > 0 {
      PiecesHaveNoNewline(text[i + 1..], k - 1);
    }
  }

  // Splitting is the one way to write a text as newline-free pieces joined by newlines.
  lemma SplitJoins(text: string)
    ensures Join(Split(text)) == text
    ensures forall k: nat :: k < |Split(text)| ==> '\n' !in Split(text)[k]
  {
    SplitJoinsBack(text);
    forall k: nat | k < |Split(text)| ensures '\n' !in Split(text)[k] {
      PiecesHaveNoNewline(text, k);
    }
  }

  lemma NewlineIs(t: string, n: nat)
    requires n < |t| && t[n] == '\n' && '\n' !in t[..n]
    ensures Newline(t) == n
  {
    var i := Newline(t);
    assert forall k :: 0 <= k < i ==> t[k] == t[..i][k];
    assert forall k :: 0 <= k < n ==> t[k] == t[..n][k];
  }

  lemma SplitFirst(a: string, b: string)
    requires '\n' !in a
    ensures Split(a + "\n" + b) == [a] + Split(b)
  {
    var t := a + "\n" + b;
    assert t[..|a|] == a;
    assert t[|a| + 1..] == b;
    NewlineIs(t, |a|);
  }

  lemma {:induction false} JoinSplits(pieces: seq<string>)
    requires pieces != [] && (forall i :: 0 <= i < |pieces| ==> '\n' !in pieces[i])
    ensures Split(Join(pieces)) == pieces
  {
    var first := pieces[0];
    if |pieces| == 1 {
      assert pieces == [first];
      assert Newline(first) == |first|;
    } else {
      JoinSplits(pieces[1..]);
      SplitFirst(first, Join(pieces[1..]));
      assert pieces == [first] + pieces[1..];
    }
  }

  lemma TrimmedCons(piece: string, pieces: seq<string>)
    ensures Trimmed([piece] + pieces) == (if Trim(piece) == "" then [] else [Trim(piece)]) + Trimmed(pieces)
  {
    assert ([piece] + pieces)[1..] == pieces;
  }

  lemma CutAt(buffer: string, i: nat, future: string)
    requires i < |buffer| && buffer[i] == '\n'
    ensures buffer + future == buffer[..i] + "\n" + (buffer[i + 1..] + future)
  {
    Around(buffer, i);
    assert [buffer[i]] == "\n";
  }

  lemma LinesFirst(a: string, b: string)
    requires '\n' !in a
    ensures Lines(a + "\n" + b) == (if Trim(a) == "" then [] else [Trim(a)]) + Lines(b)
  {
    SplitFirst(a, b);
    TrimmedCons(a, Split(b));
  }

  // One line taken from the front of what is still to come.
  lemma TakeLine(buffer: string, future: string)
    requires Newline(buffer) < |buffer|
    ensures
      var i := Newline(buffer);
      Lines(buffer + future) ==
        (if Trim(buffer[..i]) == "" then [] else [Trim(buffer[..i])]) + Lines(buffer[i + 1..] + future)
  {
    CutAt(buffer, Newline(buffer), future);
    LinesFirst(buffer[..Newline(buffer)], buffer[Newline(buffer) + 1..] + future);
  }

  lemma NoNewlineOneLine(text: string)
    requires '\n' !in text
    ensures Lines(text) == if Trim(text) == "" then [] else [Trim(text)]
  {
    assert Newline(text) == |text|;
    TrimmedCons(text, []);
    assert [text] + [] == [text];
  }

  lemma {:induction false} UpToErrorAfter(done: seq<string>, rest: seq<string>, judge: string -> Verdict)
    requires !Any(done, judge, Throws)
    ensures UpToError(done + rest, judge) == done + UpToError(rest, judge)
  {
    if done == [] {
      assert done + rest == rest;
    } else {
      assert judge(done[0]) != Throws;
      forall i | 0 <= i < |done[1..]| ensures judge(done[1..][i]) != Throws {
        assert done[1..][i] == done[i + 1];
      }
      UpToErrorAfter(done[1..], rest, judge);
      assert (done + rest)[1..] == done[1..] + rest;
    }
  }

  lemma {:induction false} UpToErrorWithout(lines: seq<string>, judge: string -> Verdict)
    requires !Any(lines, judge, Throws)
    ensures UpToError(lines, judge) == lines
  {
    if lines == [] {
    } else {
      assert judge(lines[0]) != Throws;
      forall i | 0 <= i < |lines[1..]| ensures judge(lines[1..][i]) != Throws {
        assert lines[1..][i] == lines[i + 1];
      }
      UpToErrorWithout(lines[1..], judge);
      assert lines == [lines[0]] + lines[1..];
    }
  }

  lemma {:induction false} UpToErrorWith(lines: seq<string>, judge: string -> Verdict) returns (k: nat)
    requires Any(lines, judge, Throws)
    ensures k < |lines| && UpToError(lines, judge) == lines[..k + 1]
    ensures judge(lines[k]) == Throws && !Any(lines[..k], judge, Throws)
  {
    if judge(lines[0]) == Throws {
      k := 0;
      assert lines[..1] == [lines[0]];
    } else {
      var i :| 0 <= i < |lines| && judge(lines[i]) == Throws;
      assert lines[1..][i - 1] == lines[i];
      var j := UpToErrorWith(lines[1..], judge);
      k := j + 1;
      assert lines[..k + 1] == [lines[0]] + lines[1..][..j + 1];
      assert lines[..k] == [lines[0]] + lines[1..][..j];
      forall n | 0 <= n < k ensures judge(lines[..k][n]) != Throws {
        assert n > 0 ==> lines[..k][n] == lines[1..][..j][n - 1];
      }
    }
  }

  // What is emitted is a beginning of the lines: all of them if none throws, else those up to the first that does.
  lemma UpToErrorIsPrefix(lines: seq<string>, judge: string -> Verdict)
    ensures UpToError(lines, judge) <= lines
    ensures !Any(lines, judge, Throws) ==> UpToError(lines, judge) == lines
    ensures Any(lines, judge, Throws) ==>
      var seen := UpToError(lines, judge);
      seen != [] && judge(seen[|seen| - 1]) == Throws && !Any(seen[..|seen| - 1], judge, Throws)
  {
    if Any(lines, judge, Throws) {
      var k := UpToErrorWith(lines, judge);
      assert lines[..k + 1][..k] == lines[..k];
    } else {
      UpToErrorWithout(lines, judge);
    }
  }

  function Flat(chunks: seq<string>): string {
    if chunks == [] then "" else chunks[0] + Flat(chunks[1..])
  }

  lemma ChunkArrives(buffer: string, chunks: seq<string>, n: nat, flush: string)
    requires n < |chunks|
    ensures buffer + (Flat(chunks[n..]) + flush) == buffer + chunks[n] + (Flat(chunks[n + 1..]) + flush)
  {
    assert chunks[n..][1..] == chunks[n + 1..];
    assert buffer + (chunks[n] + Flat(chunks[n + 1..]) + flush) == buffer + chunks[n] + (Flat(chunks[n + 1..]) + flush);
  }

  lemma StreamStarts(chunks: seq<string>, flush: string)
    ensures "" + (Flat(chunks[0..]) + flush) == Flat(chunks) + flush
  {
    assert chunks[0..] == chunks;
    assert "" + (Flat(chunks) + flush) == Flat(chunks) + flush;
  }

  lemma StreamEnds(buffer: string, chunks: seq<string>, flush: string)
    requires '\n' !in buffer && '\n' !in flush
    ensures '\n' !in buffer + flush && buffer + (Flat(chunks[|chunks|..]) + flush) == buffer + flush
  {
    assert chunks[|chunks|..] == [];
    assert "" + flush == flush;
  }

  lemma JudgedOne(before: seq<string>, line: string, judge: string -> Verdict, v: Verdict)
    ensures Any(before + [line], judge, v) <==> Any(before, judge, v) || judge(line) == v
  {
    var all := before + [line];
    if Any(before, judge, v) {
      var i :| 0 <= i < |before| && judge(before[i]) == v;
      assert all[i] == before[i];
    }
    assert all[|before|] == line;
  }

  // ----- The streaming loop -----

  // In mid-stream: the lines judged so far, followed by the lines of the text still to come, are those of the whole.
  predicate Going(whole: seq<string>, emitted: seq<string>, saw: bool, judge: string -> Verdict, coming: seq<string>) {
    && whole == emitted + coming
    && !Any(emitted, judge, Throws)
    && saw == Any(emitted, judge, Success)
  }

  lemma JudgeLine(whole: seq<string>, emitted: seq<string>, saw: bool, judge: string -> Verdict, line: string,
                  rest: seq<string>)
    requires Going(whole, emitted, saw, judge, [line] + rest)
    ensures judge(line) != Throws ==> Going(whole, emitted + [line], saw || judge(line) == Success, judge, rest)
    ensures judge(line) == Throws ==> UpToError(whole, judge) == emitted + [line] && Any(whole, judge, Throws)
  {
    assert whole == (emitted + [line]) + rest;
    JudgedOne(emitted, line, judge, Throws);
    JudgedOne(emitted, line, judge, Success);
    if judge(line) == Throws {
      UpToErrorAfter(emitted, [line] + rest, judge);
      assert judge(whole[|emitted|]) == Throws;
    }
  }

  // One round of the loop, for the trimmed line in front of the buffer.
  lemma LineStep(whole: seq<string>, emitted: seq<string>, saw: bool, judge: string -> Verdict, buffer: string,
                 line: string, future: string)
    requires Newline(buffer) < |buffer| && line == Trim(buffer[..Newline(buffer)])
    requires Going(whole, emitted, saw, judge, Lines(buffer + future))
    ensures
      var rest := Lines(buffer[Newline(buffer) + 1..] + future);
      if line == "" then Going(whole, emitted, saw, judge, rest)
      else if judge(line) == Throws then UpToError(whole, judge) == emitted + [line] && Any(whole, judge, Throws)
      else Going(whole, emitted + [line], saw || judge(line) == Success, judge, rest)
  {
    TakeLine(buffer, future);
    var rest := Lines(buffer[Newline(buffer) + 1..] + future);
    if line == "" {
      assert [] + rest == rest;
    } else {
      JudgeLine(whole, emitted, saw, judge, line, rest);
    }
  }

  lemma LastStep(whole: seq<string>, emitted: seq<string>, saw: bool, judge: string -> Verdict, buffer: string,
                 line: string)
    requires '\n' !in buffer && line == Trim(buffer) && Going(whole, emitted, saw, judge, Lines(buffer))
    ensures
      if line == "" then Going(whole, emitted, saw, judge, [])
      else if judge(line) == Throws then UpToError(whole, judge) == emitted + [line] && Any(whole, judge, Throws)
      else Going(whole, emitted + [line], saw || judge(line) == Success, judge, [])
  {
    NoNewlineOneLine(buffer);
    if line != "" {
      assert [line] + [] == [line];
      JudgeLine(whole, emitted, saw, judge, line, []);
    }
  }

  lemma Finished(whole: seq<string>, emitted: seq<string>, saw: bool, judge: string -> Verdict)
    requires Going(whole, emitted, saw, judge, [])
    ensures UpToError(whole, judge) == emitted && !Any(whole, judge, Throws) && saw == Any(whole, judge, Success)
  {
    assert emitted + [] == emitted;
    UpToErrorWithout(whole, judge);
  }

  // Whatever the chunks, the lines judged are those of the whole text, up to the first that throws; and the pull
  // completes exactly when none throws and one reports success.
  method PullOllamaModel(chunks: seq<string>, flush: string, judge: string -> Verdict)
      returns (emitted: seq<string>, outcome: Outcome)
    requires '\n' !in flush
    ensures emitted == UpToError(Lines(Flat(chunks) + flush), judge)
    ensures outcome == LineFailed <==> Any(Lines(Flat(chunks) + flush), judge, Throws)
    ensures outcome == Completed <==>
              !Any(Lines(Flat(chunks) + flush), judge, Throws) && Any(Lines(Flat(chunks) + flush), judge, Success)
  {
    ghost var whole := Lines(Flat(chunks) + flush);
    var buffer := "";
    var sawSuccess := false;
    emitted := [];
    StreamStarts(chunks, flush);
    for n := 0 to |chunks|
      invariant Going(whole, emitted, sawSuccess, judge, Lines(buffer + (Flat(chunks[n..]) + flush)))
      invariant '\n' !in buffer
    {
      ghost var future := Flat(chunks[n + 1..]) + flush;
      ChunkArrives(buffer, chunks, n, flush);
      buffer := buffer + chunks[n];
      var newline := Newline(buffer);
      while newline < |buffer|
        invariant newline == Newline(buffer)
        invariant Going(whole, emitted, sawSuccess, judge, Lines(buffer + future))
        decreases |buffer|
      {
        var line := Trim(buffer[..newline]);
        LineStep(whole, emitted, sawSuccess, judge, buffer, line, future);
        buffer := buffer[newline + 1..];
        if |line| > 0 {
          emitted := emitted + [line];
          if judge(line) == Throws {
            return emitted, LineFailed;
          }
          sawSuccess := sawSuccess || judge(line) == Success;
        }
        newline := Newline(buffer);
      }
      assert buffer[..newline] == buffer;
    }
    StreamEnds(buffer, chunks, flush);
    buffer := buffer + flush;
    var trailing := Trim(buffer);
    LastStep(whole, emitted, sawSuccess, judge, buffer, trailing);
    if |trailing| > 0 {
      emitted := emitted + [trailing];
      if judge(trailing) == Throws {
        return emitted, LineFailed;
      }
      sawSuccess := sawSuccess || judge(trailing) == Success;
    }
    Finished(whole, emitted, sawSuccess, judge);
    outcome := if sawSuccess then Completed else EndedEarly;
  }
}
