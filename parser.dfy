/**
 * Model of `src/parser.rs`: the line-to-message chunker.
 *
 * `MessageParserState` collects model output line by line into `buffer`. It seals
 * the buffer into `text` before a line that would overflow `MSG_MAX_LEN`. If a ```
 * code block is open, the seal closes it in `text`. Unless the overflowing line
 * is itself a fence, the new buffer reopens the block with its tag.
 * `MessageParser` drives it from a line reader. It reports a state when the
 * buffer holds at least `chunkGoalN` whole 500-character chunks (a soft flush;
 * the goal then rises by one), or when a seal has happened. When the input ends
 * with the state not complete, it forces a final seal and reports that; once
 * the state is complete, it reports `None`.
 *
 * The mutating members are methods of two classes whose fields mirror the Rust
 * structs. Each method is proved against a pure function on `Snapshot`, a value
 * copy of the six fields, and the properties of the chunker are lemmas about
 * those functions.
 */
module Parser {
  import opened Wrappers

  const CODE_GUARD: string := "```"
  const MSG_CHUNK_LEN: nat := 500
  const MSG_MAX_LEN: nat := 4000

  /** The six fields of `MessageParserState`, as a value. */
  datatype Snapshot = Snapshot(
    buffer: string,
    text: string,
    isComplete: bool,
    lang: string,
    isInCodeBlock: bool,
    chunkGoalN: nat)

  /** `MessageParserState::default()`. */
  const Default: Snapshot := Snapshot("", "", false, "", false, 0)

  // ---------------------------------------------------------------------------
  // Pure queries

  /** `check_overflow`: would `line` push the buffer past the ceiling? */
  function CheckOverflow(buffer: string, line: string): (r: bool)
    // no overflow exactly when appending the line and its newline leaves at
    // most one character (that newline) above the ceiling
    ensures !r <==> |buffer + line + "\n"| <= MSG_MAX_LEN + 1
  {
    |buffer| + |line| > MSG_MAX_LEN
  }

  /** `get_n_chunks`: how many whole 500-character chunks the buffer holds. */
  function GetNChunks(buffer: string): (r: nat)
    ensures r * MSG_CHUNK_LEN <= |buffer| < (r + 1) * MSG_CHUNK_LEN
  {
    |buffer| / MSG_CHUNK_LEN
  }

  /** `line.strip_prefix(CODE_GUARD)`: the language tag of a fence line, if `line` is one. */
  function StripGuard(line: string): (r: Option<string>)
    ensures r.Some? <==> CODE_GUARD <= line
    ensures r.Some? ==> line == CODE_GUARD + r.value
  {
    if |line| >= |CODE_GUARD| && line[..|CODE_GUARD|] == CODE_GUARD
    then Some(line[|CODE_GUARD|..])
    else None
  }

  // ---------------------------------------------------------------------------
  // The transitions of MessageParserState, as functions on snapshots

  /** `insert_line`: the new state has `line` and a newline appended to the buffer. */
  function Inserted(s: Snapshot, line: string): Snapshot
  {
    s.(buffer := s.buffer + line + "\n")
  }

  /** `finalize`: close an open fence, move the buffer into `text` and mark it complete. */
  function Finalized(s: Snapshot): Snapshot
  {
    var closed := if s.isInCodeBlock then Inserted(s, CODE_GUARD) else s;
    closed.(text := closed.buffer, buffer := "", isComplete := true)
  }

  /** `handle`: seal on overflow, track fences, reopen a sealed fence, append the line. */
  function Handled(s: Snapshot, line: string): Snapshot
  {
    var overflow := CheckOverflow(s.buffer, line);
    var s1 := if overflow then Finalized(s) else s.(isComplete := false);
    match StripGuard(line)
    case Some(tag) =>
      var open := !s1.isInCodeBlock;
      Inserted(s1.(isInCodeBlock := open, lang := if open then tag else s1.lang), line)
    case None =>
      if overflow && s1.isInCodeBlock
      then Inserted(Inserted(s1, CODE_GUARD + s1.lang), line)
      else Inserted(s1, line)
  }

  /** The state after handling every line of `lines`, first to last. */
  function HandledAll(s: Snapshot, lines: seq<string>): Snapshot
    decreases |lines|
  {
    if lines == [] then s else HandledAll(Handled(s, lines[0]), lines[1..])
  }

  // ---------------------------------------------------------------------------
  // next_state, as a function

  /** What one call of `next_state` leaves behind: the state, the reader's position and the answer. */
  datatype Pull = Pull(state: Snapshot, cursor: nat, result: Result<Option<Snapshot>>)

  /**
   * One call of `next_state` on state `s`, reading `lines` from position `cursor`.
   * When the lines run out the reader reports end of input, or fails if `readError`.
   */
  function Pulled(s: Snapshot, lines: seq<string>, cursor: nat, readError: bool): (p: Pull)
    requires cursor <= |lines|
    ensures cursor <= p.cursor <= |lines|
    ensures p.result.Ok? && p.result.value.Some? ==> p.result.value.value == p.state
    decreases |lines| - cursor
  {
    if cursor < |lines| then
      var s1 := Handled(s, lines[cursor]);
      if GetNChunks(s1.buffer) >= s1.chunkGoalN then
        var s2 := s1.(chunkGoalN := s1.chunkGoalN + 1);
        Pull(s2, cursor + 1, Ok(Some(s2)))
      else if s1.isComplete then
        var s2 := s1.(chunkGoalN := 1);
        Pull(s2, cursor + 1, Ok(Some(s2)))
      else
        Pulled(s1, lines, cursor + 1, readError)
    else if readError then
      Pull(s, cursor, Err)
    else if s.isComplete then
      Pull(s, cursor, Ok(None))
    else
      var s1 := Finalized(s);
      Pull(s1, cursor, Ok(Some(s1)))
  }

  // ---------------------------------------------------------------------------
  // The classes

  /** `MessageParserState`: the accumulator, updated in place. */
  class MessageParserState {
    var buffer: string
    var text: string
    var isComplete: bool
    var lang: string
    var isInCodeBlock: bool
    var chunkGoalN: nat

    /** The fields as a value. */
    function Snap(): Snapshot
      reads this
    {
      Snapshot(buffer, text, isComplete, lang, isInCodeBlock, chunkGoalN)
    }

    /** `MessageParserState::default()`. */
    constructor ()
      ensures Snap() == Default
    {
      buffer, text, isComplete := "", "", false;
      lang, isInCodeBlock, chunkGoalN := "", false, 0;
    }

    method InsertLine(line: string)
      modifies this
      ensures Snap() == Inserted(old(Snap()), line)
    {
      buffer := buffer + line + "\n";
    }

    method Finalize()
      modifies this
      ensures Snap() == Finalized(old(Snap()))
    {
      if isInCodeBlock {
        InsertLine(CODE_GUARD);
      }
      text := buffer;
      buffer := "";
      isComplete := true;
    }

    method Handle(line: string)
      modifies this
      ensures Snap() == Handled(old(Snap()), line)
    {
      var isOverflow := CheckOverflow(buffer, line);
      if isOverflow {
        Finalize();
      } else {
        isComplete := false;
      }
      var tag := StripGuard(line);
      if tag.Some? {
        isInCodeBlock := !isInCodeBlock;
        if isInCodeBlock {
          lang := tag.value;
        }
      } else if isOverflow && isInCodeBlock {
        InsertLine(CODE_GUARD + lang);
      }
      InsertLine(line);
    }
  }

  /** `MessageParser`: a line reader and the state it feeds. */
  class MessageParser {
    /** The lines the reader yields, in order. */
    const lines: seq<string>
    /** Whether the reader fails, rather than reporting end of input, once the lines run out. */
    const readError: bool
    /** How many lines the reader has yielded. */
    var cursor: nat
    var state: MessageParserState

    ghost predicate Valid()
      reads this, state
    {
      cursor <= |lines| && state.chunkGoalN >= 1
    }

    /** `MessageParser::new`: a default state whose chunk goal is 1. */
    constructor (lines: seq<string>, readError: bool)
      ensures Valid() && fresh(state)
      ensures this.lines == lines && this.readError == readError && cursor == 0
      ensures state.Snap() == Default.(chunkGoalN := 1)
    {
      this.lines := lines;
      this.readError := readError;
      cursor := 0;
      var st := new MessageParserState();
      st.chunkGoalN := 1;
      state := st;
    }

    /** `lines.next_line().await`: the next line, end of input, or a read error. */
    method NextLine() returns (r: Result<Option<string>>)
      requires cursor <= |lines|
      modifies this`cursor
      ensures cursor <= |lines|
      ensures old(cursor) < |lines| ==> r == Ok(Some(lines[old(cursor)])) && cursor == old(cursor) + 1
      ensures old(cursor) == |lines| ==> r == (if readError then Err else Ok(None)) && cursor == old(cursor)
    {
      if cursor < |lines| {
        r := Ok(Some(lines[cursor]));
        cursor := cursor + 1;
      } else if readError {
        r := Err;
      } else {
        r := Ok(None);
      }
    }

    /** `next_state`: handle lines until a soft flush or a seal, or the input ends. */
    method NextState() returns (r: Result<Option<Snapshot>>)
      requires Valid()
      modifies this`cursor, state
      ensures Valid() && state == old(state)
      ensures Pull(state.Snap(), cursor, r) == Pulled(old(state.Snap()), lines, old(cursor), readError)
    {
      while true
        invariant cursor <= |lines| && state == old(state) && state.chunkGoalN >= 1
        invariant Pulled(state.Snap(), lines, cursor, readError)
               == Pulled(old(state.Snap()), lines, old(cursor), readError)
        decreases |lines| - cursor
      {
        var next := NextLine();
        if next.Err? {
          return Err;
        }
        if next.value.None? {
          break;
        }
        state.Handle(next.value.value);
        if GetNChunks(state.buffer) >= state.chunkGoalN {
          state.chunkGoalN := state.chunkGoalN + 1;
          return Ok(Some(state.Snap()));
        } else if state.isComplete {
          state.chunkGoalN := 1;
          return Ok(Some(state.Snap()));
        }
      }
      if state.isComplete {
        r := Ok(None);
      } else {
        state.Finalize();
        r := Ok(Some(state.Snap()));
      }
    }
  }
}
