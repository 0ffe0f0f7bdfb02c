# Chunker of a chat bot that relays a language model, in Dafny

This project models the core of a Telegram bot that relays a language model.
The model's reply arrives as a stream of lines. The bot cuts it into a series
of outgoing messages. It seals the current message before a line would take it
past 4000 characters, and it tries to keep ``` code fences balanced across
each cut. The model covers three parts of the bot:

- **The chunker** (`src/parser.rs`). `MessageParserState` gathers lines into
  `buffer`. When a line would push the buffer past `MSG_MAX_LEN` (4000
  characters, with the line's newline not counted), it seals the buffer into
  `text` before the line goes in. If a code block is open at that point, the seal
  appends a closing fence to the sealed text. If the line is not itself a fence,
  the new buffer reopens the block with the same language tag. A fence line that
  overflows does not reopen the block: it flips the block flag and goes into the new
  buffer as it is.
- **Reporting states.** `MessageParser::next_state` feeds the state from a line reader.
  It reports a state in three cases:
  - the buffer holds at least `chunk_goal_n` whole 500-character chunks (a soft flush). The goal then rises by exactly one, so after a long line it can lag behind the chunk count, and flushes repeat without a new boundary being crossed (lemma `SoftFlushRepeatsWhileGoalLags`);
  - a seal has happened;
  - the input has ended and the last state is not yet complete. The call then forces a final seal.

  Once the input has ended and the state is complete, every call returns `None`.
- **Truncation** (`src/util.rs`). `truncate_str` shortens a string to at most
  `max_n` characters. When it cuts, it ends the result with "...", or, when `max_n` < 3,
  returns only the first `max_n` characters of "...".
- **The chat history table** (`src/history.rs`). It maps each chat id to a shared
  list of messages. `get` creates an empty list on first use, and `clear` empties
  a chat's list.

Layout:

- `wrappers.dfy`: the `Option` and `Result` values of Rust.
- `util.dfy`: `truncate_str` as a function on `seq<char>`.
- `parser.dfy`:
  - the classes `MessageParserState` and `MessageParser`, with the Rust structs' fields;
  - a value copy of the state's fields (`Snapshot`);
  - the pure functions `Inserted`, `Finalized`, `Handled`, `HandledAll` and `Pulled`, against which the
    methods `InsertLine`, `Finalize`, `Handle` and `NextState` are proved.
- `parser_properties.dfy`: lemmas about those functions.
- `history.dfy`: the history table as a class whose map holds `ChatMessages`
  objects, which stand for the `Arc<Mutex<Vec<_>>>` handles.

The model follows the code, which does the following:

- A fence is any line that starts with ``` (a raw prefix test, not a trimmed exact match).
- The language tag is kept when a block closes.
- A newline is appended after every line, including the last one.
- So two lines `hello`, `world` seal as `"hello\nworld\n"` (lemma `HelloWorld`).
- The emitted text has no hard 4000-character bound. A lone over-long line is kept whole, and a seal
  adds the closing fence.
- A first line longer than 4000 characters overflows the empty buffer, so the first seal has an empty
  `text`. The call reports it through the soft-flush branch, and the goal becomes 2
  (lemma `OverlongFirstLineSealsEmpty`).
- Sealed text is not always fence-balanced. Suppose a closing fence line arrives inside a block and
  overflows. The seal closes the block in the old text. The flag then turns off, but the fence line
  still starts the new buffer. The next seal emits a text that opens a fence and never closes it
  (lemma `OverflowingClosingFenceLeavesFenceOpen`).
- The line that triggers a seal stays in the buffer of a complete state. If the input ends right after
  it, the next call returns `None`, so that line never appears in any sealed `text` (lemma `SealTriggerIsDropped`).

## Model

| member | source | states |
|---|---|---|
| Util.Take | src/util.rs:9 | `take(n)` yields the first `n` characters, or all of them when there are fewer; the result is a prefix of the input |
| Util.SaturatingSub | src/util.rs:5 | `saturating_sub` is the difference when it is not negative and 0 otherwise |
| Util.TruncateStr | src/util.rs:1-10 | result length is min(char count, `max_n`); a short enough string comes back unchanged; a cut with `max_n` >= 3 is the first `max_n` - 3 characters plus "..."; a cut with `max_n` < 3 is the first `max_n` characters of "..." |
| Util.TruncateStrIsPrefixPlusDots | src/util.rs:3-9 | every result is a character prefix of the input followed by a prefix of "...", so no character is ever split |
| Util.TruncateStrTest | src/util.rs:16-25 | the seven cases of the unit test on a five-character Japanese string, `max_n` from 6 down to 0 |
| Parser.CheckOverflow | src/parser.rs:36-38 | no overflow exactly when the buffer with the line and its newline holds at most `MSG_MAX_LEN` + 1 characters |
| Parser.GetNChunks | src/parser.rs:41-43 | the count of whole 500-character chunks: r·500 <= char count < (r+1)·500 |
| Parser.StripGuard | src/parser.rs:67 | a tag is returned exactly when the line starts with ```, and the line is ``` followed by that tag |
| Parser.Pulled | src/parser.rs:95-112 | one `next_state` call never moves the reader backwards or past the end, and whenever it returns `Some` it returns the state it leaves behind |
| Parser.MessageParserState.constructor | src/parser.rs:11-19 | `Default`: every string is empty, both flags are false and the goal is 0 |
| Parser.MessageParserState.InsertLine | src/parser.rs:46-49 | the buffer gains the line and a newline; nothing else changes |
| Parser.MessageParserState.Finalize | src/parser.rs:52-58 | the state becomes `Finalized` of the old state (its properties: `ParserProperties.FinalizeSeals`) |
| Parser.MessageParserState.Handle | src/parser.rs:60-76 | the state becomes `Handled` of the old state and the line (its properties: the `ParserProperties.Handle…` lemmas) |
| Parser.MessageParser.constructor | src/parser.rs:85-93 | the reader is at the start and the state is the default one with a chunk goal of 1 |
| Parser.MessageParser.NextLine | src/parser.rs:96 | the reader yields the next line and moves on; at the end it reports end of input, or an error if the reader fails |
| Parser.MessageParser.NextState | src/parser.rs:95-112 | the new state, reader position and answer are exactly `Pulled` of the old ones; the chunk goal stays >= 1 and the reader stays in range |
| ParserProperties.FinalizeSeals | src/parser.rs:52-58 | `text` is the old buffer, plus "```\n" exactly when a block is open; the buffer is empty; `isComplete` is true; fence flag, tag and goal are unchanged |
| ParserProperties.HandleWithoutOverflow | src/parser.rs:60-75 | a line that fits leaves `text` alone, clears `isComplete`, makes the buffer exactly old buffer + line + "\n", and leaves at most `MSG_MAX_LEN` + 1 characters in it |
| ParserProperties.HandleWithOverflow | src/parser.rs:60-75 | a line that overflows seals: `isComplete` is true and `text` is the finalized old buffer; the new buffer is "```" + tag + "\n" + line + "\n" when a block is open and the line is not a fence, and line + "\n" otherwise |
| ParserProperties.HandleTracksFences | src/parser.rs:67-71 | a line starting with ``` flips the block flag and, when it opens a block, sets the tag to the rest of the line; any other line keeps both; the tag is never cleared on close |
| ParserProperties.HandleKeepsGoal | src/parser.rs:60-76 | `handle` never changes the chunk goal |
| ParserProperties.HandledAllKeepsGoal | src/parser.rs:60-76 | no sequence of `handle` calls changes the chunk goal |
| ParserProperties.FenceParity | src/parser.rs:67-71 | after any sequence of lines the block flag is the starting flag flipped once per fence line; seals never change it |
| ParserProperties.FittingLinesAppend | src/parser.rs:60-75 | lines that fit together below the ceiling are appended to the buffer verbatim and in order, each with its newline; `text` is unchanged and nothing is sealed |
| ParserProperties.PulledCharacterized | src/parser.rs:96-111 | one `next_state` call hands the lines it consumed to `handle` once each, in order, and none before the last makes a flush or seal due; if the last does, it returns `Some(state)` with the goal raised by exactly 1 when `get_n_chunks` >= the old goal (checked first) and reset to 1 on a seal; otherwise the input is exhausted and it returns the read error, `None` for a complete state, or the finalized state |
| ParserProperties.PulledKeepsGoalPositive | src/parser.rs:89-104 | a chunk goal of at least 1 stays at least 1 across a `next_state` call |
| ParserProperties.SoftFlushRepeatsWhileGoalLags | src/parser.rs:96-100 | while the buffer already holds at least the goal in whole chunks, a line that fits makes the call return a soft flush at once, with the goal raised by one, even though no new boundary was crossed |
| ParserProperties.AtEndOfInput | src/parser.rs:106-111 | with the lines exhausted, an incomplete state is finalized and returned as `Some`, and a complete one gives `None` and is left as it is |
| ParserProperties.ExhaustedStaysNone | src/parser.rs:106-107 | once the lines are exhausted, the next call and so every later one returns `None` |
| ParserProperties.ReadErrorPropagates | src/parser.rs:96 | a read error is returned as an error and the state is left as it was |
| ParserProperties.PulledReadsOn | src/parser.rs:96-104 | a line after which neither a flush nor a seal is due is handled, and the same call reads on from the next line |
| ParserProperties.HelloWorld | src/parser.rs:95-111 | the lines `hello`, `world` give one sealed state at the end of input with text "hello\nworld\n", then `None` |
| ParserProperties.NinthLongLineSeals | src/parser.rs:36-75 | for any 450-character line that is not a fence, `handle` on eight copies fills the buffer to 3608 characters without a seal, and a ninth copy seals exactly those eight lines and starts the new buffer with itself |
| ParserProperties.ClosedCodeBlock | src/parser.rs:60-76 | for any tag and non-fence body line that fit, the lines "```" + tag, body, "```" are sealed whole at the end of input, with the block closed and the tag kept |
| ParserProperties.OverlongFirstLineSealsEmpty | src/parser.rs:60-104 | from the start state, a non-fence first line longer than 4000 characters seals an empty `text`; the call returns that complete state with the line whole in its buffer, through the soft branch, with the goal raised to 2 |
| ParserProperties.SealTriggerIsDropped | src/parser.rs:60-111 | a short non-fence line that overflows outside a block seals the old buffer and stays alone in the new buffer of a complete state; at end of input the next call returns `None`, so the line never appears in any sealed `text` |
| ParserProperties.OverflowingClosingFenceLeavesFenceOpen | src/parser.rs:52-75 | a closing fence that overflows inside a block seals the old text closed, but turns the flag off with "```\n" left as the new buffer; after one more line the next seal emits "```\nafter\n", an unterminated fence |
| History.ChatMessages.constructor | src/history.rs:6 | a new list is empty |
| History.History.constructor | src/history.rs:9-12 | a new table holds no chat |
| History.History.Get | src/history.rs:15-20 | an unknown chat gets a fresh empty list; a known chat's list and the whole table stay unchanged; the returned handle is the very list the table holds; no two chats share a list |
| History.History.Clear | src/history.rs:22-26 | a known chat's list becomes empty and its entry stays; an unknown chat changes nothing; no other chat's list changes |
| History.ClearThenRead | src/history.rs:15-26 | a handle taken by `get` sees the list emptied by a later `clear` |

## Left out

- `src/main.rs` is not part of this model: dispatcher setup, command handlers, the language-model call and
  message sending are network I/O and calls into foreign libraries. It also keeps a history map of its own
  and has a command-name truncation that slices bytes; both are outside the chunker.
- The async reader `Lines<R>` is replaced by a fixed sequence of lines, a cursor, and a flag that makes the
  reader fail instead of reporting end of input. An error in the middle of a stream is the same as a
  shorter sequence ending in that error. What a Tokio reader does on reads after an error is not modelled;
  here it fails again.
- Parser.MessageParser.NextState: the Rust call returns a borrowed reference to the live state. The model
  returns a copy (`Snapshot`) of the state at the time of return.
- The `fmt::Debug` impl of `MessageParserState` only formats fields, through `truncate_str`.
- Parser.MessageParserState.Handle: character counts and the chunk goal are unbounded integers. A `usize`
  cannot overflow at these sizes.
- History.History.Get and History.History.Clear: the Tokio `RwLock`, the `Mutex` and the borrowed read guard
  of `ChatHistory` are concurrency plumbing. The operations run one after the other here, and messages are
  an opaque type parameter.
