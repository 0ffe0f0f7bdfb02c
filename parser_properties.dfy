/**
 * Properties of the chunker of `src/parser.rs`, stated about the functions that
 * specify `MessageParserState` and `MessageParser::next_state`.
 */
module ParserProperties {
  import opened Wrappers
  import opened Parser

  // ---------------------------------------------------------------------------
  // One line at a time

  /** `finalize` seals the buffer, closing an open fence, and keeps the fence state. */
  lemma FinalizeSeals(s: Snapshot)
    ensures var t := Finalized(s);
      && t.text == s.buffer + (if s.isInCodeBlock then CODE_GUARD + "\n" else "")
      && t.buffer == ""
      && t.isComplete
      && t.isInCodeBlock == s.isInCodeBlock && t.lang == s.lang
      && t.chunkGoalN == s.chunkGoalN
  {
  }

  /**
   * A line that fits leaves `text` alone, clears `isComplete` and is appended to
   * the buffer with its newline; the buffer then holds at most one character
   * more than the ceiling.
   */
  lemma HandleWithoutOverflow(s: Snapshot, line: string)
    requires !CheckOverflow(s.buffer, line)
    ensures var t := Handled(s, line);
      && t.text == s.text
      && !t.isComplete
      && t.buffer == s.buffer + line + "\n"
      && |t.buffer| <= MSG_MAX_LEN + 1
  {
  }

  /**
   * A line that does not fit seals the old buffer (with a closing fence if a
   * block is open) and starts the new buffer with the line, preceded by the
   * reopened fence when the block stays open across the seal.
   */
  lemma HandleWithOverflow(s: Snapshot, line: string)
    requires CheckOverflow(s.buffer, line)
    ensures var t := Handled(s, line);
      && t.isComplete
      && t.text == Finalized(s).text
      && t.buffer == (if StripGuard(line).None? && s.isInCodeBlock
                      then CODE_GUARD + s.lang + "\n" + line + "\n"
                      else line + "\n")
  {
  }

  /**
   * A fence line flips the code-block flag and, when it opens a block, records
   * its tag; any other line keeps both. The tag is never cleared on close.
   */
  lemma HandleTracksFences(s: Snapshot, line: string)
    ensures var t := Handled(s, line);
      if CODE_GUARD <= line then
        && t.isInCodeBlock == !s.isInCodeBlock
        && t.lang == (if t.isInCodeBlock then line[|CODE_GUARD|..] else s.lang)
      else
        t.isInCodeBlock == s.isInCodeBlock && t.lang == s.lang
  {
  }

  /** `handle` never touches the chunk goal. */
  lemma HandleKeepsGoal(s: Snapshot, line: string)
    ensures Handled(s, line).chunkGoalN == s.chunkGoalN
  {
  }

  // ---------------------------------------------------------------------------
  // Many lines

  /** How many of `lines` are fence lines. */
  function FenceCount(lines: seq<string>): nat
  {
    if lines == [] then 0
    else (if StripGuard(lines[0]).Some? then 1 else 0) + FenceCount(lines[1..])
  }

  /** Handling a sequence of lines keeps the chunk goal. */
  lemma {:induction false} HandledAllKeepsGoal(s: Snapshot, lines: seq<string>)
    ensures HandledAll(s, lines).chunkGoalN == s.chunkGoalN
    decreases |lines|
  {
    if lines != [] {
      HandledAllKeepsGoal(Handled(s, lines[0]), lines[1..]);
    }
  }

  /**
   * After any sequence of lines the code-block flag is the old flag flipped once
   * per fence line: seals close and reopen fences in the text but never change
   * the flag.
   */
  lemma {:induction false} FenceParity(s: Snapshot, lines: seq<string>)
    ensures HandledAll(s, lines).isInCodeBlock == (s.isInCodeBlock != (FenceCount(lines) % 2 == 1))
    decreases |lines|
  {
    if lines != [] {
      FenceParity(Handled(s, lines[0]), lines[1..]);
    }
  }

  /** The lines, each followed by its newline, as `insert_line` writes them. */
  function Joined(lines: seq<string>): string
  {
    if lines == [] then "" else lines[0] + "\n" + Joined(lines[1..])
  }

  /**
   * Lines that fit together below the ceiling are appended to the buffer
   * verbatim and in order, each with its newline, and nothing is sealed.
   */
  lemma {:induction false} FittingLinesAppend(s: Snapshot, lines: seq<string>)
    requires |s.buffer| + |Joined(lines)| <= MSG_MAX_LEN + 1
    ensures var t := HandledAll(s, lines);
      && t.buffer == s.buffer + Joined(lines)
      && t.text == s.text
      && (lines != [] ==> !t.isComplete)
    decreases |lines|
  {
    if lines != [] {
      var s1 := Handled(s, lines[0]);
      assert !CheckOverflow(s.buffer, lines[0]);
      assert s1.buffer == s.buffer + lines[0] + "\n";
      FittingLinesAppend(s1, lines[1..]);
      assert s.buffer + Joined(lines) == s1.buffer + Joined(lines[1..]);
    }
  }

  /** Lines of one length `n` take `n` + 1 characters each once joined. */
  lemma {:induction false} JoinedLength(lines: seq<string>, n: nat)
    requires forall i :: 0 <= i < |lines| ==> |lines[i]| == n
    ensures |Joined(lines)| == |lines| * (n + 1)
    decreases |lines|
  {
    if lines != [] {
      JoinedLength(lines[1..], n);
    }
  }

  /** No line of `lines` is a fence. */
  lemma {:induction false} NoFences(lines: seq<string>)
    requires forall i :: 0 <= i < |lines| ==> !(CODE_GUARD <= lines[i])
    ensures FenceCount(lines) == 0
    decreases |lines|
  {
    if lines != [] {
      NoFences(lines[1..]);
    }
  }

  // ---------------------------------------------------------------------------
  // next_state

  /** Neither a soft flush nor a seal is due in state `t` with chunk goal `goal`. */
  ghost predicate Quiet(t: Snapshot, goal: nat)
  {
    GetNChunks(t.buffer) < goal && !t.isComplete
  }

  /**
   * What one call of `next_state` does, in terms of the lines it consumed.
   * It hands the lines `lines[c..p.cursor]` to `handle` once each, in order;
   * none but the last of them made a flush or a seal due. If the last one did, the call
   * returns that state, with the goal raised by one for a soft flush (checked
   * first) or reset to 1 for a seal. Otherwise the input is exhausted and the
   * call reports the read error, or `None` if the state is already complete,
   * or the finalized state.
   */
  lemma {:induction false} PulledCharacterized(s: Snapshot, lines: seq<string>, c: nat, readError: bool)
    requires c <= |lines|
    ensures var p := Pulled(s, lines, c, readError);
      var g := s.chunkGoalN;
      var h := HandledAll(s, lines[c..p.cursor]);
      && (forall k | c < k < p.cursor :: Quiet(HandledAll(s, lines[c..k]), g))
      && if p.cursor > c && !Quiet(h, g) then
           && p.state == h.(chunkGoalN := if GetNChunks(h.buffer) >= g then g + 1 else 1)
           && p.result == Ok(Some(p.state))
         else
           && p.cursor == |lines|
           && if readError then p == Pull(h, |lines|, Err)
              else if h.isComplete then p == Pull(h, |lines|, Ok(None))
              else p == Pull(Finalized(h), |lines|, Ok(Some(Finalized(h))))
    decreases |lines| - c
  {
    if c < |lines| {
      var s1 := Handled(s, lines[c]);
      HandleKeepsGoal(s, lines[c]);
      assert lines[c..c + 1] == [lines[c]];
      assert HandledAll(s, lines[c..c + 1]) == HandledAll(s1, []);
      if GetNChunks(s1.buffer) < s1.chunkGoalN && !s1.isComplete {
        PulledCharacterized(s1, lines, c + 1, readError);
        var p := Pulled(s1, lines, c + 1, readError);
        forall k | c < k <= p.cursor
          ensures HandledAll(s, lines[c..k]) == HandledAll(s1, lines[c + 1..k])
        {
          assert lines[c..k][0] == lines[c];
          assert lines[c..k][1..] == lines[c + 1..k];
        }
      }
    } else {
      assert lines[c..c] == [];
    }
  }

  /** The chunk goal starts at 1 and every call of `next_state` keeps it at least 1. */
  lemma PulledKeepsGoalPositive(s: Snapshot, lines: seq<string>, c: nat, readError: bool)
    requires c <= |lines| && s.chunkGoalN >= 1
    ensures Pulled(s, lines, c, readError).state.chunkGoalN >= 1
  {
    var p := Pulled(s, lines, c, readError);
    PulledCharacterized(s, lines, c, readError);
    HandledAllKeepsGoal(s, lines[c..p.cursor]);
  }

  /**
   * The goal rises by one per soft flush, so it can lag behind the chunk count.
   * While the buffer already holds at least `chunkGoalN` chunks, every line that
   * fits makes the very next call return a soft flush, without a new 500-character
   * boundary being crossed.
   */
  lemma SoftFlushRepeatsWhileGoalLags(s: Snapshot, lines: seq<string>, c: nat, readError: bool)
    requires c < |lines| && !CheckOverflow(s.buffer, lines[c])
    requires GetNChunks(s.buffer) >= s.chunkGoalN
    ensures var p := Pulled(s, lines, c, readError);
      && p.cursor == c + 1
      && p.state == Handled(s, lines[c]).(chunkGoalN := s.chunkGoalN + 1)
      && p.result == Ok(Some(p.state))
  {
    HandleWithoutOverflow(s, lines[c]);
    HandleKeepsGoal(s, lines[c]);
    var t := Handled(s, lines[c]);
    assert GetNChunks(t.buffer) >= GetNChunks(s.buffer);
  }

  /**
   * Once the lines are exhausted, a call finalizes an incomplete state and
   * returns it, or returns `None` for a complete one.
   */
  lemma AtEndOfInput(s: Snapshot, lines: seq<string>)
    ensures var p := Pulled(s, lines, |lines|, false);
      && p.cursor == |lines|
      && (p.result == Ok(None) <==> s.isComplete)
      && (s.isComplete ==> p.state == s)
      && (!s.isComplete ==> p.state == Finalized(s) && p.result == Ok(Some(Finalized(s))))
  {
  }

  /** Once the lines are exhausted, a second call (and so every later one) returns `None`. */
  lemma ExhaustedStaysNone(s: Snapshot, lines: seq<string>)
    ensures var p1 := Pulled(s, lines, |lines|, false);
      Pulled(p1.state, lines, p1.cursor, false) == Pull(p1.state, |lines|, Ok(None))
  {
  }

  /** A read error is passed on as it is, and the state is left as it was. */
  lemma ReadErrorPropagates(s: Snapshot, lines: seq<string>)
    ensures Pulled(s, lines, |lines|, true) == Pull(s, |lines|, Err)
  {
  }

  /** A line after which nothing is due is handled and the call reads on. */
  lemma PulledReadsOn(s: Snapshot, lines: seq<string>, c: nat, readError: bool)
    requires c < |lines| && Quiet(Handled(s, lines[c]), s.chunkGoalN)
    ensures Pulled(s, lines, c, readError) == Pulled(Handled(s, lines[c]), lines, c + 1, readError)
  {
    HandleKeepsGoal(s, lines[c]);
  }

  // ---------------------------------------------------------------------------
  // Scenarios

  /** The state a new `MessageParser` starts from. */
  const Start: Snapshot := Default.(chunkGoalN := 1)

  /** Two short lines come out as one sealed message at the end of input, each line with its newline. */
  lemma HelloWorld()
    ensures var p := Pulled(Start, ["hello", "world"], 0, false);
      && p.cursor == 2
      && p.result == Ok(Some(p.state))
      && p.state.text == "hello\nworld\n" && p.state.buffer == "" && p.state.isComplete
      && Pulled(p.state, ["hello", "world"], 2, false).result == Ok(None)
  {
    var lines := ["hello", "world"];
    var s1 := Handled(Start, lines[0]);
    assert s1.buffer == "hello\n" && !s1.isComplete;
    PulledReadsOn(Start, lines, 0, false);
    var s2 := Handled(s1, lines[1]);
    assert s2.buffer == "hello\nworld\n" && !s2.isComplete;
    PulledReadsOn(s1, lines, 1, false);
  }

  /**
   * Nine lines of 450 characters: the first eight fit (3608 characters with
   * their newlines), and the ninth seals them, unchanged, as one message.
   */
  lemma NinthLongLineSeals(line: string)
    requires |line| == 450 && !(CODE_GUARD <= line)
    ensures var eight := seq(8, _ => line);
      var t := HandledAll(Start, eight);
      var u := Handled(t, line);
      && t.buffer == Joined(eight) && |t.buffer| == 3608 && !t.isComplete
      && u.isComplete && u.text == Joined(eight) && u.buffer == line + "\n"
  {
    var eight := seq(8, _ => line);
    JoinedLength(eight, 450);
    FittingLinesAppend(Start, eight);
    NoFences(eight);
    FenceParity(Start, eight);
  }

  /**
   * A code block within the ceiling (an opening fence with tag `tag`, one body
   * line and a closing fence) is sealed whole at the end of input, with the
   * block closed and the tag kept; for example "```python", "code line", "```".
   */
  lemma ClosedCodeBlock(tag: string, body: string)
    requires |tag| + |body| <= 400 && !(CODE_GUARD <= body)
    ensures var lines := [CODE_GUARD + tag, body, CODE_GUARD];
      var p := Pulled(Start, lines, 0, false);
      && p.result == Ok(Some(p.state))
      && p.state.text == CODE_GUARD + tag + "\n" + body + "\n" + CODE_GUARD + "\n"
      && !p.state.isInCodeBlock && p.state.lang == tag
  {
    var lines := [CODE_GUARD + tag, body, CODE_GUARD];
    assert lines[0][|CODE_GUARD|..] == tag;
    assert CODE_GUARD <= lines[0];
    HandleWithoutOverflow(Start, lines[0]);
    HandleTracksFences(Start, lines[0]);
    var s1 := Handled(Start, lines[0]);
    PulledReadsOn(Start, lines, 0, false);
    HandleWithoutOverflow(s1, lines[1]);
    HandleTracksFences(s1, lines[1]);
    var s2 := Handled(s1, lines[1]);
    PulledReadsOn(s1, lines, 1, false);
    assert CODE_GUARD <= lines[2];
    HandleWithoutOverflow(s2, lines[2]);
    HandleTracksFences(s2, lines[2]);
    var s3 := Handled(s2, lines[2]);
    PulledReadsOn(s2, lines, 2, false);
    assert s3.buffer == CODE_GUARD + tag + "\n" + body + "\n" + CODE_GUARD + "\n";
    FinalizeSeals(s3);
  }

  /**
   * A first line longer than `MSG_MAX_LEN` overflows even the empty buffer, so
   * the empty buffer is sealed: the first call reports a complete state whose
   * `text` is "", with the line kept whole in the buffer. The report comes from
   * the soft-flush branch, which is checked first, so the goal rises to 2.
   */
  lemma OverlongFirstLineSealsEmpty(line: string)
    requires |line| > MSG_MAX_LEN && !(CODE_GUARD <= line)
    ensures var p := Pulled(Start, [line], 0, false);
      && p.cursor == 1 && p.result == Ok(Some(p.state))
      && p.state.isComplete && p.state.text == ""
      && p.state.buffer == line + "\n"
      && p.state.chunkGoalN == 2
  {
    HandleWithOverflow(Start, line);
    FinalizeSeals(Start);
    HandleKeepsGoal(Start, line);
    assert GetNChunks(Handled(Start, line).buffer) >= 1;
  }

  /**
   * The line that triggers a seal stays in the buffer of a complete state. If
   * the input ends right after it, the next call returns `None`, so that line
   * is never reported in any sealed text.
   */
  lemma SealTriggerIsDropped(s: Snapshot, line: string)
    requires CheckOverflow(s.buffer, line) && !s.isInCodeBlock && s.chunkGoalN >= 1
    requires !(CODE_GUARD <= line) && |line| < MSG_CHUNK_LEN - 1
    ensures var p1 := Pulled(s, [line], 0, false);
      && p1.result == Ok(Some(p1.state))
      && p1.state.text == s.buffer && p1.state.isComplete
      && p1.state.buffer == line + "\n"
      && Pulled(p1.state, [line], 1, false) == Pull(p1.state, 1, Ok(None))
  {
    HandleWithOverflow(s, line);
    FinalizeSeals(s);
    var s1 := Handled(s, line);
    assert GetNChunks(s1.buffer) == 0;
  }

  /**
   * A closing fence line that itself overflows: the seal closes the block in
   * the sealed text, the flag then flips to "not in a block", and the fence
   * line still goes into the new buffer. The next seal therefore emits a text
   * that opens a fence (its first line) and never closes it.
   */
  lemma OverflowingClosingFenceLeavesFenceOpen(s: Snapshot)
    requires s.isInCodeBlock && CheckOverflow(s.buffer, CODE_GUARD)
    ensures var t := Handled(s, CODE_GUARD);
      var u := Handled(t, "after");
      && t.isComplete && t.text == s.buffer + CODE_GUARD + "\n"
      && t.buffer == CODE_GUARD + "\n" && !t.isInCodeBlock
      && !u.isComplete && !u.isInCodeBlock
      && Finalized(u).text == CODE_GUARD + "\nafter\n"
  {
    var t := Handled(s, CODE_GUARD);
    assert StripGuard(CODE_GUARD) == Some("");
    assert "after"[..3][0] != CODE_GUARD[0];
    assert !CheckOverflow(t.buffer, "after");
  }
}
