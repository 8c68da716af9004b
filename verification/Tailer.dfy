/** Following an append-only JSONL file: polls read what is new, keep the unfinished line back,
    and start over when the file seems to have been recreated. */
module Tailer {
  import opened Wrappers
  import opened Text

  /* ----- Splitting a whole file ----- */

  /** The newline-terminated pieces of a text, read character by character, without their newlines. */
  function Terminated(s: string): seq<string> {
    if s == [] then []
    else
      var init := s[..|s| - 1];
      if s[|s| - 1] == '\n' then Terminated(init) + [Partial(init)] else Terminated(init)
  }

  /** The text after the last newline. */
  function Partial(s: string): string {
    if s == [] then []
    else if s[|s| - 1] == '\n' then []
    else Partial(s[..|s| - 1]) + [s[|s| - 1]]
  }

  function TrimCarriageReturns(line: string): string {
    if line != [] && line[|line| - 1] == '\r' then TrimCarriageReturns(line[..|line| - 1]) else line
  }

  /** Empty pieces are dropped, the others lose their trailing carriage returns. */
  function Kept(pieces: seq<string>): seq<string> {
    if pieces == [] then []
    else
      var last := pieces[|pieces| - 1];
      Kept(pieces[..|pieces| - 1]) + if last == [] then [] else [TrimCarriageReturns(last)]
  }

  /** What one pass over a whole file would yield. */
  function Lines(s: string): seq<string> {
    Kept(Terminated(s))
  }

  lemma {:induction false} TerminatedOfConcat(a: string, b: string)
    ensures Terminated(a + b) == Terminated(a) + Terminated(Partial(a) + b)
    ensures Partial(a + b) == Partial(Partial(a) + b)
  {
    hide Terminated, Partial;
    if b == [] {
      assert a + b == a && Partial(a) + b == Partial(a);
      PartialIsUnterminated(a);
      assert Terminated(a) + [] == Terminated(a);
    } else {
      var init, c := b[..|b| - 1], b[|b| - 1];
      TerminatedOfConcat(a, init);
      assert a + b == (a + init) + [c];
      assert Partial(a) + b == (Partial(a) + init) + [c];
      OneMoreCharacter(a + init, c);
      OneMoreCharacter(Partial(a) + init, c);
    }
  }

  lemma OneMoreCharacter(s: string, c: char)
    ensures Terminated(s + [c]) == if c == '\n' then Terminated(s) + [Partial(s)] else Terminated(s)
    ensures Partial(s + [c]) == if c == '\n' then [] else Partial(s) + [c]
  {
    assert (s + [c])[..|s|] == s;
  }

  lemma {:induction false} PartialIsUnterminated(a: string)
    ensures Terminated(Partial(a)) == [] && Partial(Partial(a)) == Partial(a)
  {
    if a != [] && a[|a| - 1] != '\n' {
      PartialIsUnterminated(a[..|a| - 1]);
      var p := Partial(a);
      assert p[..|p| - 1] == Partial(a[..|a| - 1]);
    }
  }

  lemma {:induction false} KeptOfConcat(a: seq<string>, b: seq<string>)
    ensures Kept(a + b) == Kept(a) + Kept(b)
  {
    if b == [] {
      assert a + b == a;
    } else {
      KeptOfConcat(a, b[..|b| - 1]);
      assert (a + b)[..|a + b| - 1] == a + b[..|b| - 1];
    }
  }

  lemma LinesOfConcat(a: string, b: string)
    ensures Lines(a + b) == Lines(a) + Lines(Partial(a) + b)
  {
    TerminatedOfConcat(a, b);
    KeptOfConcat(Terminated(a), Terminated(Partial(a) + b));
  }

  /* ----- Splitting as the tailer does it ----- */

  /** Where the text after the last newline begins. */
  function AfterLastNewline(s: string): (n: nat)
    ensures n <= |s|
  {
    if s == [] then 0
    else if s[|s| - 1] == '\n' then |s|
    else AfterLastNewline(s[..|s| - 1])
  }

  /** All pieces between newlines, the last one included. */
  function Split(s: string): (r: seq<string>)
    ensures r != []
  {
    if s == [] then [[]]
    else
      var init := Split(s[..|s| - 1]);
      var c := s[|s| - 1];
      if c == '\n' then init + [[]] else init[..|init| - 1] + [init[|init| - 1] + [c]]
  }

  lemma {:induction false} SplitIsTerminatedAndPartial(s: string)
    ensures Split(s) == Terminated(s) + [Partial(s)]
  {
    if s != [] {
      SplitIsTerminatedAndPartial(s[..|s| - 1]);
    }
  }

  lemma {:induction false} LastNewlineCuts(s: string)
    ensures s[AfterLastNewline(s)..] == Partial(s)
    ensures Terminated(s[..AfterLastNewline(s)]) == Terminated(s) && Partial(s[..AfterLastNewline(s)]) == []
  {
    if s != [] && s[|s| - 1] != '\n' {
      var init := s[..|s| - 1];
      LastNewlineCuts(init);
      assert s[AfterLastNewline(init)..] == init[AfterLastNewline(init)..] + [s[|s| - 1]];
      assert s[..AfterLastNewline(init)] == init[..AfterLastNewline(init)];
    } else {
      assert s[..|s|] == s && s[|s|..] == [];
    }
  }

  /** The first character that is not white space. */
  function FirstVisible(s: string): Option<char> {
    if s == [] then None
    else if !IsWhitespace(s[0]) then Some(s[0])
    else FirstVisible(s[1..])
  }

  /* ----- One poll ----- */

  datatype State = State(offset: nat, partialLine: string)

  const NEW := State(0, [])

  function LooksRecreated(s: State, chunk: string): bool {
    s.offset != 0 && s.partialLine == [] && FirstVisible(chunk).Some? && FirstVisible(chunk) != Some('{')
  }

  /** Where a poll starts reading, given what the file holds now. */
  function StartOf(s: State, file: string): State {
    if |file| < s.offset then NEW
    else if LooksRecreated(s, file[s.offset..]) then NEW
    else s
  }

  function Poll(s: State, file: Option<string>): (r: (State, seq<string>))
  {
    if file.None? then (s, [])
    else
      var start := StartOf(s, file.value);
      var chunk := file.value[if start.offset <= |file.value| then start.offset else 0..];
      if chunk == [] then (start.(offset := |file.value|), [])
      else
        var pending := start.partialLine + chunk;
        (State(|file.value|, Partial(pending)), Lines(pending))
  }

  class AndroidJsonlTailer {
    var offset: nat
    var partialLine: string

    function Model(): State
      reads this
    {
      State(offset, partialLine)
    }

    constructor ()
      ensures Model() == NEW
    {
      offset, partialLine := 0, [];
    }

    method ResetForRecreatedFile()
      modifies this
      ensures Model() == NEW
    {
      offset, partialLine := 0, [];
    }

    method ReadNewChunk(file: Option<string>) returns (chunk: Option<string>)
      modifies this
      ensures file.None? ==> Model() == old(Model()) && chunk.None?
      ensures file.Some? ==>
                var start := StartOf(old(Model()), file.value);
                && start.offset <= |file.value|
                && Model() == start.(offset := |file.value|)
                && (chunk.None? <==> file.value[start.offset..] == [])
                && (chunk.Some? ==> chunk.value == file.value[start.offset..])
    {
      if file.None? {
        return None;
      }
      var content := file.value;
      if |content| < offset {
        ResetForRecreatedFile();
      }
      var oldOffset := offset;
      var read := content[oldOffset..];
      offset := |content|;
      if LooksRecreated(State(oldOffset, partialLine), read) {
        ResetForRecreatedFile();
        read := content[0..];
        offset := |content|;
      }
      chunk := if read == [] then None else Some(read);
    }

    /** Hands out the finished lines and keeps the unfinished one back. */
    method TakeCompleteLines(chunk: string) returns (lines: seq<string>)
      modifies this`partialLine
      ensures lines == Lines(old(partialLine) + chunk)
      ensures partialLine == Partial(old(partialLine) + chunk)
    {
      hide Terminated, Partial, Split, Kept, AfterLastNewline;
      var pending := if partialLine == [] then chunk else partialLine + chunk;
      assert pending == old(partialLine) + chunk;
      partialLine := [];
      LastNewlineCuts(pending);
      if pending == [] || pending[|pending| - 1] != '\n' {
        var partialStart := AfterLastNewline(pending);
        partialLine := pending[partialStart..];
        pending := pending[..partialStart];
      } else {
        EndsTerminated(pending);
      }
      SplitIsTerminatedAndPartial(pending);
      lines := KeepLines(Split(pending));
      KeptOfConcat(Terminated(pending), [[]]);
      KeptNothing();
      assert Kept(Terminated(pending)) + [] == Kept(Terminated(pending));
    }

    method PollLines(file: Option<string>) returns (lines: seq<string>)
      modifies this
      ensures (Model(), lines) == Poll(old(Model()), file)
    {
      hide Partial, Lines, FirstVisible, LooksRecreated;
      var chunk := ReadNewChunk(file);
      if chunk.None? {
        return [];
      }
      lines := TakeCompleteLines(chunk.value);
    }
  }

  method KeepLines(pieces: seq<string>) returns (lines: seq<string>)
    ensures lines == Kept(pieces)
  {
    hide TrimCarriageReturns;
    lines := [];
    for n := 0 to |pieces|
      invariant lines == Kept(pieces[..n])
    {
      assert pieces[..n + 1][..n] == pieces[..n];
      if pieces[n] != [] {
        lines := lines + [TrimCarriageReturns(pieces[n])];
      }
    }
    assert pieces[..|pieces|] == pieces;
  }

  lemma EndsTerminated(s: string)
    requires s != [] && s[|s| - 1] == '\n'
    ensures Partial(s) == []
  {
  }

  lemma KeptNothing()
    ensures Kept([[]]) == []
  {
  }

  /* ----- Schedules of appends and polls ----- */

  /** Polls of a growing file: each finds some first part of what the file will finally hold. */
  predicate Schedule(file: string, cuts: seq<nat>) {
    && (forall i :: 0 <= i < |cuts| ==> cuts[i] <= |file|)
    && (forall i, j :: 0 <= i < j < |cuts| ==> cuts[i] <= cuts[j])
  }

  function Follow(file: string, cuts: seq<nat>): (State, seq<string>)
    requires Schedule(file, cuts)
  {
    if cuts == [] then (NEW, [])
    else
      var before := Follow(file, cuts[..|cuts| - 1]);
      var polled := Poll(before.0, Some(file[..cuts[|cuts| - 1]]));
      (polled.0, before.1 + polled.1)
  }

  function Reached(cuts: seq<nat>): nat {
    if cuts == [] then 0 else cuts[|cuts| - 1]
  }

  /** Following has kept up: it has yielded each finished line once and in order, and holds back
      exactly the unfinished one. */
  predicate KeepsUp(file: string, cuts: seq<nat>)
    requires Schedule(file, cuts)
  {
    Follow(file, cuts) == (State(Reached(cuts), Partial(file[..Reached(cuts)])), Lines(file[..Reached(cuts)]))
  }

  /** A place where the tailer would take the file for a new one: a line boundary after which the
      next visible character is no opening brace, with some line already handed out. */
  predicate Misleading(file: string, at: nat) {
    && 0 < at <= |file|
    && file[at - 1] == '\n'
    && Lines(file[..at]) != []
    && FirstVisible(file[at..]).Some? && FirstVisible(file[at..]) != Some('{')
  }

  lemma {:induction false} VisiblePrefix(s: string, n: nat)
    requires n <= |s| && FirstVisible(s[..n]).Some?
    ensures FirstVisible(s) == FirstVisible(s[..n])
  {
    if n > 0 && IsWhitespace(s[0]) {
      assert s[..n][1..] == s[1..][..n - 1];
      VisiblePrefix(s[1..], n - 1);
    }
  }

  /** One more poll keeps up, unless it stops at a misleading place. */
  lemma PollKeepsUp(file: string, from: nat, to: nat)
    requires from <= to <= |file| && !Misleading(file, from)
    ensures var polled := Poll(State(from, Partial(file[..from])), Some(file[..to]));
            && polled.0 == State(to, Partial(file[..to]))
            && Lines(file[..from]) + polled.1 == Lines(file[..to])
  {
    hide Lines, Partial, Poll, LooksRecreated;
    var s := State(from, Partial(file[..from]));
    var chunk := file[from..][..to - from];
    assert file[..to] == file[..from] + chunk;
    assert chunk == file[..to][from..];
    if LooksRecreated(s, chunk) {
      RecreatedMisleads(file, from, to);
      RewindReadsAll(s, file[..to]);
    } else {
      PartialIsUnterminated(file[..from]);
      ReadsOn(s, file[..to]);
      LinesOfConcat(file[..from], chunk);
      TerminatedOfConcat(file[..from], chunk);
    }
  }

  /** Where the file is taken for a new one without being misleading, nothing was handed out yet. */
  lemma RecreatedMisleads(file: string, from: nat, to: nat)
    requires from <= to <= |file| && !Misleading(file, from)
    requires LooksRecreated(State(from, Partial(file[..from])), file[from..][..to - from])
    ensures Lines(file[..from]) == []
  {
    hide Lines, Partial;
    VisiblePrefix(file[from..], to - from);
    BoundaryHasNewline(file[..from]);
  }

  /** A poll that does not start over reads on from where it stood. */
  lemma ReadsOn(s: State, file: string)
    requires s.offset <= |file| && !LooksRecreated(s, file[s.offset..])
    requires Terminated(s.partialLine) == [] && Partial(s.partialLine) == s.partialLine
    ensures var pending := s.partialLine + file[s.offset..];
            Poll(s, Some(file)) == (State(|file|, Partial(pending)), Lines(pending))
  {
    hide Partial, Terminated, LooksRecreated;
    if file[s.offset..] == [] {
      assert s.partialLine + [] == s.partialLine;
    }
  }

  lemma BoundaryHasNewline(a: string)
    requires a != [] && Partial(a) == []
    ensures a[|a| - 1] == '\n'
  {
  }

  lemma {:induction false} FollowKeepsUp(file: string, cuts: seq<nat>)
    requires Schedule(file, cuts)
    requires forall i :: 0 <= i < |cuts| ==> !Misleading(file, cuts[i])
    ensures KeepsUp(file, cuts)
  {
    hide Lines, Poll, Misleading;
    if cuts == [] {
      NothingYet(file);
    } else {
      var init := cuts[..|cuts| - 1];
      FollowKeepsUp(file, init);
      if init == [] {
        NotMisleadingAtStart(file);
      }
      PollKeepsUp(file, Reached(init), Reached(cuts));
    }
  }

  lemma NothingYet(file: string)
    ensures file[..0] == [] && Partial(file[..0]) == [] && Lines(file[..0]) == []
  {
  }

  lemma NotMisleadingAtStart(file: string)
    ensures !Misleading(file, 0)
  {
  }

  /** A schedule that stops at a misleading place is handed the earlier lines again. */
  lemma MisleadingRepeats(file: string, at: nat)
    requires Misleading(file, at)
    ensures Schedule(file, [at, |file|])
    ensures Follow(file, [at, |file|]).1 == Lines(file[..at]) + Lines(file)
    ensures Follow(file, [at, |file|]).1 != Lines(file)
  {
    hide Lines, Poll;
    var cuts := [at, |file|];
    assert cuts[..1] == [at] && [at][..0] == [];
    NothingYet(file);
    NotMisleadingAtStart(file);
    PollKeepsUp(file, 0, at);
    assert file[..|file|] == file;
    EndsTerminated(file[..at]);
    assert Follow(file, []) == (NEW, []);
    assert [] + Lines(file[..at]) == Lines(file[..at]);
    assert Follow(file, [at]) == (State(at, []), Lines(file[..at]));
    RewindReadsAll(State(at, []), file);
    assert Lines(file[..at]) + Lines(file) != Lines(file) by {
      assert |Lines(file[..at])| > 0;
    }
  }

  lemma RewindReadsAll(s: State, file: string)
    requires s.offset <= |file| && LooksRecreated(s, file[s.offset..])
    ensures Poll(s, Some(file)) == (State(|file|, Partial(file)), Lines(file))
  {
    hide Lines, Partial;
    assert file[0..] == file && [] + file == file;
  }

  /** The tailer agrees with one-shot splitting under every schedule exactly when the file has no
      misleading place. */
  lemma FollowingIsSplitting(file: string)
    ensures (forall cuts :: Schedule(file, cuts) ==> Follow(file, cuts).1 == Lines(file[..Reached(cuts)])) <==>
            (forall at: nat :: !Misleading(file, at))
  {
    hide Lines, Follow, Misleading;
    if forall at: nat :: !Misleading(file, at) {
      forall cuts | Schedule(file, cuts) ensures Follow(file, cuts).1 == Lines(file[..Reached(cuts)]) {
        FollowKeepsUp(file, cuts);
      }
    } else {
      var at: nat :| Misleading(file, at);
      MisleadingRepeats(file, at);
      var cuts := [at, |file|];
      assert Reached(cuts) == |file| && file[..|file|] == file;
    }
  }

  /* ----- JSONL files ----- */

  predicate BracedOrBlank(line: string) {
    FirstVisible(line).None? || FirstVisible(line) == Some('{')
  }

  lemma {:induction false} VisibleOfConcat(a: string, b: string)
    ensures FirstVisible(a + b) == if FirstVisible(a).Some? then FirstVisible(a) else FirstVisible(b)
  {
    if a == [] {
      assert a + b == b;
    } else {
      assert (a + b)[1..] == a[1..] + b;
      if IsWhitespace(a[0]) {
        VisibleOfConcat(a[1..], b);
      }
    }
  }

  /** What is first visible in a text is first visible in one of its lines. */
  lemma {:induction false} VisibleInSomeLine(s: string)
    requires forall i :: 0 <= i < |Terminated(s)| ==> BracedOrBlank(Terminated(s)[i])
    requires BracedOrBlank(Partial(s))
    ensures BracedOrBlank(s)
    ensures FirstVisible(s).None? ==> FirstVisible(Partial(s)).None?
  {
    if s != [] {
      var init, c := s[..|s| - 1], s[|s| - 1];
      assert s == init + [c];
      OneMoreCharacter(init, c);
      VisibleOfConcat(init, [c]);
      VisibleOfConcat(Partial(init), [c]);
      if c == '\n' {
        assert Terminated(s)[|Terminated(s)| - 1] == Partial(init);
        forall i | 0 <= i < |Terminated(init)| ensures BracedOrBlank(Terminated(init)[i]) {
          assert Terminated(s)[i] == Terminated(init)[i];
        }
      }
      VisibleInSomeLine(init);
    }
  }

  /** A file all of whose non-blank lines begin with an opening brace, the unfinished one included,
      is followed exactly, however appends and polls interleave. */
  lemma JsonlIsFollowed(file: string, cuts: seq<nat>)
    requires Schedule(file, cuts)
    requires forall i :: 0 <= i < |Terminated(file)| ==> BracedOrBlank(Terminated(file)[i])
    requires BracedOrBlank(Partial(file))
    ensures KeepsUp(file, cuts)
  {
    hide Terminated, Partial, Lines, FirstVisible, Follow, Misleading, BracedOrBlank;
    forall at: nat ensures !Misleading(file, at) {
      BracedIsNotMisleading(file, at);
    }
    FollowKeepsUp(file, cuts);
  }

  lemma BracedIsNotMisleading(file: string, at: nat)
    requires forall i :: 0 <= i < |Terminated(file)| ==> BracedOrBlank(Terminated(file)[i])
    requires BracedOrBlank(Partial(file))
    ensures !Misleading(file, at)
  {
    hide Terminated, Partial, Lines, FirstVisible, BracedOrBlank;
    if 0 < at <= |file| && file[at - 1] == '\n' {
      var a, b := file[..at], file[at..];
      assert file == a + b;
      TerminatedOfConcat(a, b);
      EndsTerminated(a);
      assert Partial(a) + b == b;
      forall i | 0 <= i < |Terminated(b)| ensures BracedOrBlank(Terminated(b)[i]) {
        assert Terminated(file)[|Terminated(a)| + i] == Terminated(b)[i];
      }
      VisibleInSomeLine(b);
    }
  }

  /** A file found shorter than what was read is read like a new one. */
  lemma TruncationStartsOver(s: State, file: string)
    requires |file| < s.offset
    ensures Poll(s, Some(file)) == Poll(NEW, Some(file))
    ensures Poll(s, Some(file)) == (State(|file|, Partial(file)), Lines(file))
  {
    hide Partial, Lines, LooksRecreated;
    assert StartOf(s, file) == StartOf(NEW, file) == NEW;
    assert file[0..] == file && [] + file == file;
    if file == [] {
      EmptyFile();
    }
  }

  lemma EmptyFile()
    ensures Partial([]) == [] && Lines([]) == []
  {
  }

  /* ----- What a yielded line is ----- */

  predicate AllReturns(s: string) {
    forall i :: 0 <= i < |s| ==> s[i] == '\r'
  }

  /** Trimming takes carriage returns, and nothing else, off the end until none is left there. */
  lemma {:induction false} TrimmedExactly(line: string)
    ensures TrimCarriageReturns(line) <= line && AllReturns(line[|TrimCarriageReturns(line)|..])
    ensures TrimCarriageReturns(line) != "" ==> TrimCarriageReturns(line)[|TrimCarriageReturns(line)| - 1] != '\r'
  {
    if line != [] && line[|line| - 1] == '\r' {
      TrimmedExactly(line[..|line| - 1]);
    }
  }

  /** How many of the first pieces are not empty. */
  function NonEmpty(pieces: seq<string>): nat {
    if pieces == [] then 0 else NonEmpty(pieces[..|pieces| - 1]) + if pieces[|pieces| - 1] == "" then 0 else 1
  }

  /** Each piece that is not empty is yielded, trimmed, in its place among them; nothing else is. */
  lemma {:induction false} KeptExactly(pieces: seq<string>)
    ensures |Kept(pieces)| == NonEmpty(pieces)
    ensures forall i :: 0 <= i < |pieces| && pieces[i] != "" ==>
              NonEmpty(pieces[..i]) < |Kept(pieces)|
              && Kept(pieces)[NonEmpty(pieces[..i])] == TrimCarriageReturns(pieces[i])
  {
    hide TrimCarriageReturns;
    if pieces != [] {
      var n := |pieces| - 1;
      var init := pieces[..n];
      KeptExactly(init);
      forall i | 0 <= i < |pieces| && pieces[i] != ""
        ensures NonEmpty(pieces[..i]) < |Kept(pieces)|
        ensures Kept(pieces)[NonEmpty(pieces[..i])] == TrimCarriageReturns(pieces[i])
      {
        if i < n {
          assert init[..i] == pieces[..i] && init[i] == pieces[i];
        } else {
          assert pieces[..i] == init;
        }
      }
    }
  }

  /** The first visible character is the one that only white space precedes; there is none in a blank text. */
  lemma {:induction false} FirstVisibleExactly(s: string, c: char)
    ensures FirstVisible(s) == Some(c) <==>
            exists i :: 0 <= i < |s| && s[i] == c && !IsWhitespace(c) && forall j :: 0 <= j < i ==> IsWhitespace(s[j])
  {
    hide IsWhitespace;
    if s != [] {
      if IsWhitespace(s[0]) {
        FirstVisibleExactly(s[1..], c);
        if FirstVisible(s) == Some(c) {
          var i :| 0 <= i < |s[1..]| && s[1..][i] == c && !IsWhitespace(c) && forall j :: 0 <= j < i ==> IsWhitespace(s[1..][j]);
          assert forall j :: 1 <= j < i + 1 ==> s[j] == s[1..][j - 1];
          assert s[i + 1] == c;
        }
        if i :| 0 <= i < |s| && s[i] == c && !IsWhitespace(c) && forall j :: 0 <= j < i ==> IsWhitespace(s[j]) {
          assert s[1..][i - 1] == c && forall j :: 0 <= j < i - 1 ==> s[1..][j] == s[j + 1];
        }
      }
    }
  }
}
