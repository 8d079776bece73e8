# Myra's protocols and renderers, verified

Myra is a coding agent: it streams a model's reply to the terminal, runs the tools the model asks
for, and talks JSON-RPC to MCP servers on one side and to an editor (the Agent Client Protocol) on
the other. This project models the stateful parts of `src/myra.c`, `src/acp.c` and `src/mcp.c` in
Dafny, each as the code has it: objects whose methods update their fields, loops over buffers and
rings. Beside each stands a short reference definition that says what the result means, and lemmas
about that definition.

| file | part |
|---|---|
| `Wrappers.dfy`, `Bytes.dfy` | optional values; bytes, and facts about sequences that several files share |
| `Utf8.dfy`, `Cleaning.dfy` | UTF-8 (section 4 of RFC 3629, without U+0000), replacing what is not valid, and where text may be cut |
| `Sink.dfy`, `Reading.dfy` | the bounded output collector, and the read tool's shortcut through a large file |
| `Escape.dfy` | control characters in caret notation |
| `Terminal.dfy`, `Sgr.dfy` | styled characters, a terminal that interprets SGR (section 8.3.117 of ECMA-48) and is garbled by C1 controls, the sequences written to it |
| `Markdown.dfy`, `Kinds.dfy`, `Looks.dfy`, `MarkdownLaws.dfy` | what whole lines and texts show; which lines are of which kind, by their bytes; what each kind looks like; what marks mean and what rendering keeps |
| `Holding.dfy`, `Controls.dfy` | when a line start has to be held, and which texts are rendered to a C1 control |
| `Render.dfy`, `Reply.dfy` | the streaming renderer, and the printing of a reply |
| `Stream.dfy`, `Exchange.dfy` | the reply reassembled from server-sent events, and what the request loop sees of a transfer |
| `Conversation.dfy` | one turn over the conversation: requests, retries, tool calls, context drops, rollback |
| `JsonRpc.dfy`, `Registry.dfy`, `Mcp.dfy` | message ids; the tools offered to the model; the pipe to an MCP server |
| `Acp.dfy` | the ACP server |

The main results:

- **Rendering.** Whatever text is fed, in whatever chunks, the bytes written are those of classifying
  each whole line, styling it and ending it (`Render.Renderer.Feed`, `Render.Renderer.End`). At every
  moment a terminal has exactly the attributes of the renderer's style (`Reply.StyleIsInForce`).
  A line is a heading, quote, bullet, rule, fence or closing fence exactly when its bytes have that shape
  (`Kinds.LineIsHeading` and the lemmas beside it), and what each kind and each mark looks like is stated
  in `Looks` and `MarkdownLaws.RunDecides`. `Holding.HeldWhileOpen` says exactly which line starts are held
  although nothing that follows can matter.
- **Escaping.** Chunks show as their concatenation exactly when no cut tears a C1 control
  (`Escape.RunConcat`), so a reply in whole characters prints as its whole text would
  (`Reply.PrintReply`). What is printed of any reply garbles a terminal exactly when a line of the escaped
  text is rendered to a C1 control, and whole characters never do (`Reply.ReplyAtTheTerminal`).
- **Collecting.** The head buffer and the ring are "the first fifth and the last four fifths" of
  everything fed (`Sink.Collector.Add`); cutting keeps whole characters and counts exactly
  (`Sink.TruncationKeepsCharacters`, `Sink.TruncationAccounts`); reading only the ends of a large
  file shows what reading all of it would (`Reading.ToolRead`).
- **The turn.** A turn fails exactly when its last request gave no usable response, and then leaves the
  conversation as it was; otherwise all its replies follow, each call with its result, which is what its
  tool gave or why it did not run. Every request is the one that the rules call for after the one before,
  and the turn ends only where they say (`Conversation.Agent.Course`, `Conversation.Agent.Ends`). Calls and
  results are paired, at every model request and at the end, exactly when no reply came with the role of a tool
  result. A turn makes at most 200 requests, each of at most 5 attempts, and runs at most 100 tools
  (`Conversation.Agent.Ask`). A reply is taken from a transfer exactly when its body is complete, in
  whatever pieces it came, and then it has the texts of all events, joined in order, and each call's own
  fragments (`Exchange.Perform`).
- **ACP.** Over any run, every request in what was read is answered once, in order and as it calls for, no
  other id is answered, every announced tool call is over, and no tool acted before its call was reported
  to run (`Acp.Run`). A prompt's actions are all carried out: text is shown, and each known tool is
  announced, used and ended as its work does, unless the turn was interrupted (`Acp.Server.Dispatch`).
- **MCP.** The lines a server has been given are whole messages and at most one part
  (`Mcp.ServerReadsMessages`); the first response to a request's own fresh id ends it and gives its result,
  nothing else but a lost, late or interrupted server does, and the server's own requests before it are all
  answered unless a send failed (`Mcp.Server.Rpc`); the tools
  offered are the built-in ones and what the running servers expose, with no trace of a server that failed
  (`Registry.Agent.Start`).

## Where a property holds only on a condition

- When nothing was dropped, `sink_take` still cleans head and tail one by one (src/myra.c:291-300), so
  a valid character across the end of the head shows as two or more U+FFFD. Its comment promises cuts
  on character boundaries, and scripts/agent.py:524-525 joins the parts first. The model follows the C
  code: `Sink.FittingOutput` gives the exact condition, `Sink.FittingOutputCanBeTorn` an input for every
  cap that can be set.
- `src/myra.h:58` says a line start is held until its kind is known. `Holding.Foregone` lists the starts
  that are held longer, such as two plus signs or 255 spaces; `Holding.HeldWhileOpen` proves the list
  exact, with the rule that byte 256 decides.
- `myra_escape` looks one byte ahead for a C1 control, so it depends on how text is cut inside a
  character; `Escape.RunConcat` is the exact condition.
- The repository's README.md:115 promises that control characters in replies show as text. Rendering can join the two
  bytes of a C1 control that escaping saw apart: C2, an empty code span, 9B (`Reply.EmptySpanMakesC1`).
  `Controls.TextC1` says exactly which texts are rendered so; they are never whole characters
  (`Controls.WholeTextMakesNoC1`).
- `myra_step` stores a message with the server's own role (src/myra.c:1434). One with role "tool" answers
  no call and spoils pairing for good (`Conversation.ReplyAsToolResult`); `Conversation.StoredPairs` is
  the exact condition. A streamed reply is always an assistant's.

## Model

| member | source | states |
|---|---|---|
| Utf8.Utf8Len | src/myra.c:167-186 | Returns the length of the UTF-8 character that the bytes start with, 0 if they start with none; `CharLenIsEncoding` says which those are. |
| Utf8.CharLenIsEncoding | src/myra.c:167-186 | A character is accepted exactly when the bytes start with the encoding of a scalar value other than U+0000, with that encoding's length. |
| Utf8.DecodeInverts | src/myra.c:167-186 | Every accepted character decodes to a scalar value whose encoding it is. |
| Utf8.EncodeParses | src/myra.c:167-186 | Every encoded scalar value is accepted, whatever follows, and decodes to itself. |
| Cleaning.ValidUtf8 | src/myra.c:188-193 | The loop accepts exactly valid text. |
| Cleaning.ValidIffEncoded | src/myra.c:188-193 | Valid text is exactly what encoding some sequence of scalar values gives. |
| Cleaning.SanitizeUtf8 | src/myra.c:195-208 | The two loops, the copying one and the one that finds nothing to do, give the cleaned text. |
| Cleaning.CleanStepByStep | src/myra.c:195-208 | A character is kept whole; a byte that starts none gives way to U+FFFD, alone. |
| Cleaning.CleanIsValid | src/myra.c:195-208 | Cleaning gives valid text, for any bytes, and never shortens it. |
| Cleaning.CleanIdentity | src/myra.c:195-208 | Text is left as it is if and only if it is valid. |
| Cleaning.CleanIdempotent | src/myra.c:195-208 | Cleaning twice is cleaning once. |
| Cleaning.CleanDistributes | src/myra.c:195-208 | Cleaning distributes over a valid prefix. |
| Cleaning.CleanSplits | src/myra.c:286-300 | Cleaning the two sides of a cut one by one is cleaning the whole, if and only if no character straddles the cut. |
| Cleaning.CleanTornApart | src/myra.c:286-300 | A character that is cut in two makes the two cleaned sides longer than the cleaned whole. |
| Cleaning.ValidCut | src/myra.c:275-290 | In valid text a cut splits a character exactly when a continuation byte follows it; otherwise both sides are valid. |
| Sink.Collector.constructor | src/myra.c:228-235 | The head takes a fifth of the cap, the ring the rest. |
| Sink.Collector.Push | src/myra.c:256-261 | One byte into the ring: the ring holds the last bytes of what it held and the new one, full or not. |
| Sink.Collector.Replace | src/myra.c:250-255 | A chunk that fills the ring replaces it by the chunk's own last bytes. |
| Sink.Collector.Wrap | src/myra.c:250-261 | After a chunk of any size the ring holds the last bytes of all it was given. |
| Sink.Collector.Add | src/myra.c:242-262 | After any chunk, head and unrolled ring are the first fifth and the last four fifths of everything fed, and the total is exact. |
| Sink.RingStep | src/myra.c:256-261 | Writing one slot and moving the start, modulo the ring's size, appends to the unrolled ring and drops its oldest byte when full. |
| Sink.CutHead | src/myra.c:276-284 | The backward scan finds where the head is to be cut. |
| Sink.CutTail | src/myra.c:285-288 | The forward scan finds the continuation bytes the tail starts with. |
| Sink.EndsAreCut | src/myra.c:276-288 | Of any bytes: the head loses exactly a character that its lead byte says is longer than what is there, and the tail exactly the continuation bytes it starts with. |
| Sink.Collector.Take | src/myra.c:267-303 | The output is what head, ring and total show, and so what the simple form shows of all that was fed. |
| Sink.WholeHeadOfValid | src/myra.c:276-284 | In valid text the head is cut at the last character boundary that fits. |
| Sink.TruncationKeepsCharacters | src/myra.c:264-303 | Valid text that does not fit shows as a prefix of whole characters, the note, a suffix of whole characters, with the exact count, and no longer valid prefix or suffix would fit. |
| Sink.TruncationAccounts | src/myra.c:264-303 | For any bytes: a prefix and a suffix are shown cleaned, with the note between them, whose digits read back as the number of bytes left out; with the bytes kept that is all bytes; the head loses at most three bytes, and the result is valid. |
| Sink.DecimalRoundTrip | src/myra.c:297-297 | The number in the note reads back as the count. |
| Sink.NoteSays | src/myra.c:295-299 | The note is a line of its own with the number of bytes left out, in decimal. |
| Sink.ShownIsValid | src/myra.c:264-303 | Whatever is collected, the result is valid UTF-8. |
| Sink.FittingOutput | src/myra.c:286-300 | Output that fits is shown cleaned as a whole if and only if no character straddles the end of the head; valid output is shown as it is if and only if no continuation byte stands there. |
| Sink.FittingOutputCanBeTorn | src/myra.c:286-300 | Under every cap from 1024 bytes, which is every cap that can be set, there is valid text that fits and is shown with two replacement characters. |
| Reading.FillSink | src/myra.c:354-366 | Reads of any size put a stretch of the file into the collector, at least as long as asked unless the file ends or a read fails, and notice a NUL in it exactly when there is one; it fails only where the file cannot be read. |
| Reading.ReadEnds | src/myra.c:378-383 | Head, seek and tail leave the collector's head, ring and total as the whole file would, and a NUL is noticed exactly when one was read. |
| Reading.EndsSuffice | src/myra.c:378-383 | The first bytes with any overshoot, and the last ones, hold all that is kept of the whole. |
| Reading.ToolRead | src/myra.c:368-408 | A file shows as if it had been read whole; a pipe or device cut off at 64 MB shows so, and says so; a file is called binary exactly when what was read of it has a NUL; reading fails only if some place in the file cannot be read. |
| Reading.StoppedSays | src/myra.c:395-404 | The note about the rest of a stream stands on a line of its own. |
| Escape.Escape | src/myra.c:101-122 | The loop with its held carriage return gives the caret form, and holds or flushes as told. |
| Escape.EscapeAll | src/myra.c:105-116 | The loop over the characters writes, and leaves held, what the definition by whole steps says. |
| Escape.RunConcat | src/myra.c:101-122 | Two pieces show as the whole does, if and only if the cut does not tear a C1 control. |
| Escape.ChunksShowAsWhole | src/myra.c:101-122 | Pieces of whole characters, fed one by one and flushed, show as their concatenation. |
| Escape.RunIsHarmless | src/myra.c:101-122 | No C0 control but newline and tab, no DEL, and no C1 control is left. |
| Escape.CompleteIsHarmless | src/myra.c:101-122 | The same for a complete text, and without newline and tab when those are to be shown too. |
| Escape.HarmlessIsKept | src/myra.c:101-122 | Text without control characters is left as it is. |
| Escape.CaretNotation | src/myra.c:95-122 | Each control character shows as a caret and the letter 64 above it, DEL as a caret and a question mark, a C1 control with M- before; all else as it is. |
| Escape.CarriageReturns | src/myra.c:101-122 | CRLF shows as a line end, and a carriage return before anything else as a control character. |
| Sgr.Sequence | src/myra.c:828-840 | The sequence assembled in the 24-byte buffer is the one that sets the style, and it fits. |
| Terminal.ReceiveChange | src/myra.c:828-840 | A terminal that gets the sequence has exactly the attributes of the new style, whatever the old one. |
| Terminal.TerminalShowsCells | src/myra.c:828-850 | A terminal shows every character under the style meant for it and is left with the last one. |
| Kinds.LineIsHeading | src/myra.c:917-923 | Outside code a line of any length is a heading with its marker dropped up to a given place, if and only if that is at most three spaces, one to six number signs and a space. |
| Kinds.LineIsQuote | src/myra.c:929-933 | A line is a quote if and only if it has spaces and then the quote mark, before byte 255 if it has 256 bytes or more; one space after the mark goes with it. |
| Kinds.LineIsBullet | src/myra.c:936-939 | A line is a bullet if and only if it has spaces, one of the three bullet marks and a space, the mark before byte 255. |
| Kinds.LineIsRule | src/myra.c:934-934 | A line is a rule if and only if it has spaces and then three or more of one of the three rule marks and nothing else, in at most 255 bytes. |
| Kinds.LineIsFence | src/myra.c:924-928 | A line opens a block if and only if it has at most three spaces, three or more backticks or tildes, and no backtick after backticks, in at most 255 bytes. |
| Kinds.LineIsClose | src/myra.c:906-912 | In a block a line closes it if and only if it has at most three spaces, at least as many of the block's marks as opened it, and then blanks only, in at most 255 bytes; every other line is code. |
| Kinds.LineIsPlain | src/myra.c:901-943 | Outside code a line is of one of the five kinds above, or plain with nothing dropped. |
| Markdown.DecidedForGood | src/myra.c:901-943 | Once a line start is not undecided, kind and marker length are the same for every longer line, complete or not. |
| Markdown.StartDecides | src/myra.c:985-999 | A start decided before byte 256 decides the line, however long the line gets. |
| Markdown.StartForced | src/myra.c:994-995 | A start still undecided at 255 bytes makes the line plain, or code inside a block. |
| Holding.HeldWhileOpen | src/myra.c:901-943 | A held line start can still become lines of two classes, byte 256 and all, with the exceptions that `Foregone` lists and no others. |
| Holding.ForegoneStarts | src/myra.c:901-943 | 255 spaces, two plus signs, a backtick fence with a backtick after it, and a closing mark that has no room are held and foregone. |
| Holding.TildesOpenAFenceWhileShort | src/myra.c:994-995 | Three tildes start a fence on lines of at most 255 bytes, and a plain line on longer ones. |
| Looks.StyleLooks | src/myra.c:828-840 | A terminal shows headings bold and underlined, strong text bold, emphasis italic, code green, markers and rules faint. |
| Looks.HeadingLooks | src/myra.c:945-970 | A line of a heading's shape shows its text in heading style, without its mark. |
| Looks.QuoteLooks | src/myra.c:958-960 | A line of a quote's shape shows a faint bar, a space, and its text. |
| Looks.BulletLooks | src/myra.c:961-964 | A line of a bullet's shape shows its indentation, a dash, a space, and its text. |
| Looks.RuleLooks | src/myra.c:955-956 | A rule shows itself, faint. |
| Looks.PlainLooks | src/myra.c:945-970 | A plain line shows its text from its first byte on. |
| Looks.FenceLooks | src/myra.c:950-952 | A fence is not shown, not even as an empty line, and opens a block of its mark and its length. |
| Looks.CodeLooks | src/myra.c:953-956 | In a block each line shows itself in code style and leaves the block open, until one of the closing shape, which is not shown. |
| Looks.LineTyped | src/myra.c:985-999 | A text is rendered line by line, whatever came before. |
| Looks.UnendedLooksEnded | src/myra.c:1001-1004 | A last line without its line end looks as if it had one. |
| MarkdownLaws.InlineKeeps | src/myra.c:854-898 | Inline rendering shows a subsequence of the text, equal to it once the four marks are removed from both. |
| MarkdownLaws.LineShows | src/myra.c:945-970 | Code lines and rules come out verbatim, fence lines not at all, other lines as a marker and text that keeps its characters. |
| MarkdownLaws.MarkerDropped | src/myra.c:901-943 | What is dropped from a heading, quote or bullet is its mark and the space that ends it. |
| MarkdownLaws.TextIsVerbatim | src/myra.c:873-898 | Text without marks is shown as it is, in the style in force. |
| MarkdownLaws.CodeIsVerbatim | src/myra.c:884-896 | A code span shows what stands between its backticks as it is, in code style, and the backticks not. |
| MarkdownLaws.CodeSpan | src/myra.c:884-896 | A code span as a whole shows its text in code style and not its backticks; without the second backtick all that follows is code. |
| MarkdownLaws.RunDecides | src/myra.c:854-871 | What any run of stars or low lines does: it turns italic, bold or both on, if no gap follows, or off, if none comes before, low lines only outside words; else, or if there are more than three, or three with only one of the two on, its marks are shown. |
| MarkdownLaws.MarksEmphasize | src/myra.c:854-871 | Text between two runs of one, two or three marks that lean on it is shown italic, bold or both, and the marks are not shown. |
| MarkdownLaws.BackslashShows | src/myra.c:873-880 | A backslash shows the ASCII punctuation after it as it is; before all else, and at the end of a line, it shows itself. |
| MarkdownLaws.LinesEndPlain | src/myra.c:972-983 | After every line end no style is in force. |
| MarkdownLaws.ShownGrows | src/myra.c:985-999 | What complete lines show is never taken back. |
| MarkdownLaws.TextFrom | src/myra.c:945-998 | Every character shown is one of the text's, a marker's, or a line end. |
| Render.Renderer.Put | src/myra.c:842-846 | One more character is shown under the style asked for. |
| Render.Renderer.Resolve | src/myra.c:854-871 | A held run toggles emphasis exactly when it delimits by the flanking rules; else it is shown as it is. |
| Render.Renderer.Release | src/myra.c:873-884 | What one character decides about the held run agrees with the whole line's rendering, for every rest of the line. |
| Render.Renderer.Step | src/myra.c:873-898 | After any character, what has been shown and what is held come to what the whole line shows, for every rest of the line. |
| Render.Renderer.Decide | src/myra.c:901-943 | The index loops classify the held start as the definition on sequences does, and `Kinds` says of that which lines are of which kind. |
| Render.Renderer.Apply | src/myra.c:945-970 | The held start is shown as a line of its kind shows it, and opens or closes the code block. |
| Render.Renderer.ReleaseAtEnd | src/myra.c:972-977 | At the line end the held run is settled, and the line has been shown in full. |
| Render.Renderer.EndOfLine | src/myra.c:972-983 | A line end closes the line: the state is that of the text with the newline. |
| Render.Renderer.Continue | src/myra.c:989-991 | A character past the line start keeps the state that of the text so far. |
| Render.Renderer.Begin | src/myra.c:993-996 | A character of a line start keeps it too, and the 256-byte buffer is never overrun. |
| Render.Renderer.Feed | src/myra.c:985-999 | Any chunk of any text leaves the renderer in the state of all text fed: what is written is what the whole lines show, and what is held cannot be shown yet. |
| Render.Renderer.End | src/myra.c:1001-1004 | All that was written is the painting of the text's cells, and the renderer is as new. |
| Render.Renderer.BetweenLines | src/myra.c:972-983 | Between lines, what was written is the painting of the complete lines, and no style is left on. |
| Reply.Show | src/myra.c:1123-1129 | One piece of reply text is escaped, and the renderer is fed the result. |
| Reply.PrintReply | src/myra.c:1123-1150 | What is written for a reply is its escaped pieces rendered; for pieces of whole characters, its whole text escaped and rendered. |
| Reply.StyleIsInForce | src/myra.c:828-850 | At every moment the terminal's attributes are those of the renderer's style, and it showed every character under the style meant, unless the text makes a C1 control. |
| Reply.ReplyAtTheTerminal | src/myra.c:1123-1129 | In whatever pieces a reply comes: no control character of one byte but newline and tab is shown, the terminal is garbled exactly when a line is rendered to a C1 control, else it shows every character as meant and ends in its default style; whole characters never garble it, and no C1 control is among what they show. |
| Reply.EmptySpanMakesC1 | src/myra.c:884-896 | C2, an empty code span, 9B: escaping leaves it, and rendering makes a C1 control of it. |
| Controls.InlineMakesC1 | src/myra.c:854-898 | A line's text is rendered to a C1 control if and only if it has a lead byte and a second byte with nothing between them that is shown, or that changes the style. |
| Controls.TextC1 | src/myra.c:945-998 | A text is rendered to a C1 control if and only if one of its lines is, by its kind. |
| Controls.WholeTextMakesNoC1 | src/myra.c:945-998 | Text whose lead bytes are followed as in whole characters is rendered to none, across changes of style or not. |
| Escape.CompleteLeads | src/myra.c:101-122 | Escaping valid text leaves no lead byte that a C1 control could start with. |
| Terminal.GarbledByC1 | src/myra.c:828-850 | What is painted garbles a terminal exactly when it has a C1 control within one style. |
| Stream.LinesOfMore | src/myra.c:1172-1194 | More input only adds lines: those of what was left over, followed by it. |
| Stream.LineByLine | src/myra.c:1183-1192 | A text's lines are those between its newlines, in order, and what is left at its end. |
| Stream.ChompedLine | src/myra.c:1185-1187 | A carriage return before the newline is not part of the line, and no other one is dropped. |
| Stream.DataLine | src/myra.c:1165-1167 | A line of data gives what follows its field name, without one space. |
| Stream.OtherLine | src/myra.c:1165-1167 | No other line gives any. |
| Stream.ChunkOfOne | src/myra.c:1131-1170 | A line is an event exactly when its data parses and is not the end mark. |
| Stream.ChunksConcat | src/myra.c:1165-1170 | Events come in the order of their lines. |
| Stream.Receiver.OnStream | src/myra.c:1172-1194 | However the stream is cut, the lines handled are those of the whole, though only new bytes are searched; too large a response is refused and leaves what was rebuilt. |
| Stream.Receiver.Scan | src/myra.c:1183-1192 | Searching from the first new byte finds every line, and CRLF ends one too. |
| Stream.Receiver.StreamLine | src/myra.c:1165-1170 | One line is handled: an event adds to the reply, the end mark is noted, all else is ignored. |
| Stream.Receiver.StreamEvent | src/myra.c:1131-1163 | One event keeps the reply rebuilt so far that of all events. |
| Stream.Receiver.MergeCalls | src/myra.c:1067-1090 | The calls rebuilt are those of all fragments so far: arguments are the concatenation of a call's own fragments, id and name its last ones that are not empty. |
| Stream.CallsIgnoreInterleaving | src/myra.c:1067-1090 | However fragments of different calls interleave, the calls are the same. |
| Stream.TextsAreJoined | src/myra.c:1147-1153 | The content is the texts of all parts, joined in the order of their arrival. |
| Stream.PartsAreJoined | src/myra.c:1131-1163 | The parts are those of all events, in the order of their arrival. |
| Stream.FragmentsConcat | src/myra.c:1154-1155 | So are the fragments of calls. |
| Stream.FragmentsOfOne | src/myra.c:1154-1155 | A part has the fragments it lists, and a text none. |
| Stream.OwnConcat | src/myra.c:1067-1090 | And the fragments of one call. |
| Stream.OwnOfOne | src/myra.c:1071-1072 | A fragment is that of the call it names, up to number 255, and of no other. |
| Stream.ArgsConcat | src/myra.c:1088-1088 | Arguments are joined in the order of their arrival. |
| Stream.ArgsOfOne | src/myra.c:1088-1088 | A fragment adds what it gives of them, and nothing if it gives none. |
| Stream.LastGiven | src/myra.c:1085-1087 | Id and name are the last ones given that are not empty. |
| Stream.CallReads | src/myra.c:1067-1090 | Each call has the id, the name and the arguments of its own fragments. |
| Stream.WidthIsLargest | src/myra.c:1071-1081 | There are as many calls as the largest number up to 255 asks for. |
| Stream.FinishIsLast | src/myra.c:1144-1145 | The reason to end is the last one given, cut to 31 bytes. |
| Stream.ErrorIsLast | src/myra.c:1134-1138 | The error is the last one given, and there is none if no event has one. |
| Stream.Receiver.Result | src/myra.c:1197-1225 | The reply put together has the texts of all events, joined in order of arrival, the calls of all their fragments, and the last reason to end; its content is absent only beside calls. |
| Stream.Transfer | src/myra.c:1172-1225 | A transfer comes to what its whole body does, in any pieces: events, reason to end, end mark, error and reply; it is cut off exactly when it is over the size limit. |
| Exchange.Perform | src/myra.c:1261-1286 | A reply is taken exactly when the transfer succeeded within the size limit and its body has no error and, with events, a reason to end or the end mark; then it is an assistant's, with the content, the calls and the reason to end that the events of the whole body give, or the body as it reads. |
| Conversation.Agent.Request | src/myra.c:1248-1316 | At most five attempts; only a retryable failure is followed by another, and each one is, up to the fifth or an interrupt; a response comes from a success only, and a streamed one is an assistant's. |
| Conversation.WhatIsRetried | src/myra.c:1277-1312 | A failure is retried if and only if it is a broken transfer, 429, 5xx, an error among the events or a cut-off stream, with no text on screen and no full context; and never after an oversize response, an abort or a refused connection. A context is full exactly on a 400 or an error that says so. |
| Conversation.PrintedOnce | src/myra.c:1305-1315 | What the user sees of one request was printed by one attempt, the last. |
| Conversation.Agent.Answer | src/myra.c:1453-1473 | Every call gets one result that names it; its tool runs unless the turn is interrupted or at its limit or the arguments do not parse; a result is what the tool gave, marked as an error if it failed, or says why no tool ran. |
| Conversation.Agent.TakeCall | src/myra.c:1441-1475 | A call without an id gets one, and its result, of its own tool, follows in order. |
| Conversation.Agent.Step | src/myra.c:1403-1487 | A refused response changes nothing; else the message is stored with its own role, all its calls named, and the k-th result tells what became of the k-th call; calls run in order, and none beyond 100 in a turn. |
| Conversation.Agent.Store | src/myra.c:1426-1475 | The message and the results of all its calls are stored, and the tools run are those of the calls that ran. |
| Conversation.TookReads | src/myra.c:1421-1475 | What a response leaves, field by field: a reply cut off by length loses its calls, content is absent only beside calls, a call without an id is numbered, and each result has its call's id and its tool's text, or the reason why it was skipped. |
| Conversation.RunsRead | src/myra.c:1441-1475 | The k-th call's run stands among the runs, in order, with the text that its result has. |
| Conversation.TookPairs | src/myra.c:1403-1487 | A stored reply with its results keeps the conversation paired if and only if its role is not that of a tool result. |
| Conversation.StoredPairs | src/myra.c:1403-1511 | Over a turn, with drops, the conversation is paired if and only if no reply came with the role of a tool result. |
| Conversation.ReplyAsToolResult | src/myra.c:1434-1434 | A reply with that role leaves the conversation unpaired, and a drop would count it with the last batch. |
| Conversation.StuckIsUnpaired | src/myra.c:1434-1434 | A conversation that such a reply has spoilt is not paired, whatever follows it. |
| Conversation.Agent.DropOldToolOutput | src/myra.c:1496-1511 | The loops blank exactly the older tool outputs, count them, and clear the signed reasoning if there were any. |
| Conversation.DropLaw | src/myra.c:1496-1511 | A drop blanks older tool outputs only, keeps the last batch, leaves nothing more to drop, and does nothing when there is nothing. |
| Conversation.DropReads | src/myra.c:1496-1511 | Exactly the tool outputs that some other message follows give way to the mark; all signed reasoning goes if one of them was not the mark already, and else none. |
| Conversation.PairedByShape | src/myra.c:1496-1511 | Blanking contents and details cannot break pairing. |
| Conversation.Agent.Recover | src/myra.c:1554-1562 | A context-full drop saves the conversation once, blanks what can be blanked, keeps the replies stored and the turn's bounds, and always makes the next drop smaller. |
| Conversation.Agent.Advance | src/myra.c:1564-1573 | A reply that is not refused is stored after the others, within the bounds on tools and requests; the turn goes on or ends as the rules say. |
| Conversation.Agent.Ask | src/myra.c:1537-1585 | A turn fails exactly when its last request gave no response or a refused one, and leaves the conversation as it was; else all replies and results follow the user's message. Its first request sends the conversation with that message; each other one follows a reply that called tools, with their results, or a full context, without older tool output. It ends only with a failure, nothing being left to drop, a reply without calls, an interrupt, or 100 calls. It counts as cut short exactly if a reply hit the length limit, or 100 calls were made and the user did not stop it. At every request and at the end it is paired exactly when it was before and no reply had the role of a tool result; at most 100 tools and 200 requests. |
| Conversation.Agent.RollBack | src/myra.c:1581-1583 | Only the turn's own messages are removed. |
| Conversation.Agent.Clear | src/myra.c:1648-1651 | Only the system prompt is left, and the conversation is paired whatever it was. |
| Conversation.Agent.SetCwd | src/myra.c:1620-1628 | Only the system prompt's text changes. |
| Mcp.Server.Write | src/mcp.c:85-95 | Whatever the short writes, waits and interrupts, a prefix of the text is given, and only an interrupt, the deadline or the server's exit keeps it short. |
| Mcp.Server.SendLine | src/mcp.c:76-101 | A message is given whole, or not at all, or in part and then the pipe is closed; after that nothing is given; a failure has its cause. |
| Mcp.Server.Serve | src/mcp.c:111-125 | A request from the server is answered with its own id, ping with a result, others with an error, unless the send fails. |
| Mcp.Server.Take | src/mcp.c:127-156 | The next message is the first line, in order, that parses; other lines are skipped, none is lost or invented. |
| Mcp.AnswersForLine | src/mcp.c:111-125 | A line is answered exactly if it reads as a message with a method and an id that is not null: with that id, and with a result exactly if it is a ping. |
| Mcp.AnswersConcat | src/mcp.c:111-125 | Answers come in the order of the lines. |
| Mcp.Server.Await | src/mcp.c:173-201 | The first response with the request's id ends the call, and gives its result unless it has an error or none; without such a response there is no result, only because of an interrupt, the deadline or the end of the server's output, and a server still there is told, unless that send failed. The requests of the server heard before the response are answered in order, all of them unless a send failed. |
| Mcp.Server.Listen | src/mcp.c:138-154 | Waiting ends only with more input, the server's exit, an interrupt, the deadline or too much output. |
| Mcp.Server.GiveUp | src/mcp.c:173-182 | A request given up is cancelled under its own id, unless that send fails. |
| Mcp.Server.Rpc | src/mcp.c:159-203 | The first response to this request's own id, which no request had before, decides the result; without one there is none, and only because the send failed, the user interrupted, time was up or the output ended; what the server asked meanwhile is answered, unless a send failed. |
| Mcp.WireLines | src/mcp.c:76-101 | Whole message lines read back as the messages sent. |
| Mcp.ServerReadsMessages | src/mcp.c:76-101 | Whatever was written, in whatever parts: the complete lines a server has been given are exactly the messages sent to it. |
| Registry.AddSafe | src/mcp.c:206-215 | The buffer holds the made-safe concatenation, cut to its size. |
| Registry.ExposedReads | src/mcp.c:206-273 | An exposed name is the prefix, the server, two low lines and the tool, with a low line for each character not allowed, cut to 64. |
| Registry.ExposedIsWellNamed | src/mcp.c:268-273 | An exposed name has 1 to 64 characters of the allowed ones and is no built-in name. |
| Registry.Agent.HasTool | src/mcp.c:217-225 | Whether a name is offered. |
| Registry.Agent.AddTool | src/mcp.c:268-292 | A tool is offered under a name not taken and recorded with its server, or skipped. |
| Registry.Agent.ListTools | src/mcp.c:245-297 | Whatever the pages, the tools offered stay consistent, removing the server's gives the list before, and every named tool on the pages read is offered; it succeeds exactly when one of the first 100 replies, all before it being pages with more to come, is the last page. |
| Registry.Agent.Drop | src/mcp.c:228-242 | The server is unlinked and exactly its tools leave the list. |
| Registry.Agent.Start | src/mcp.c:376-402 | A server starts exactly when it answers and its list is complete; then its tools, all those listed, come after the old ones; else, at whatever page it failed, tools and servers are as they were. |
| Registry.Agent.Stop | src/mcp.c:497-500 | Stopping all servers leaves the built-in tools. |
| Registry.Agent.ServerOf | src/mcp.c:534-539 | Every offered name that is not built in is served by exactly one server, under its own name for it. |
| Registry.OfferedAreWellNamed | src/mcp.c:206-297 | All names offered are well-formed and at most 64 long. |
| Registry.ConsistentAdd | src/mcp.c:268-292 | Adding a free name keeps names distinct and each exposed by one server. |
| Registry.ConsistentDrop | src/mcp.c:228-242 | Removing a server's names keeps the built-in ones and the other servers' exactly. |
| Registry.OnlyBuiltins | src/mcp.c:497-500 | With no server running, only the built-in tools are offered. |
| Acp.Server.LookAt | src/acp.c:67-91 | A line that does not parse fails the outstanding call with a made-up response, or without one is answered as a parse error; session/cancel interrupts a running prompt and is not queued; all else is queued. |
| Acp.OwedForLine | src/acp.c:67-91 | A line is owed an answer exactly if it has a method that is not session/cancel and an id that is not null: one with that id. |
| Acp.DueForLine | src/acp.c:67-91 | A line is to be handled exactly if it has a method that is not session/cancel. |
| Acp.DueForConcat | src/acp.c:67-91 | Messages are to be handled in the order of their lines. |
| Acp.CancelIsHeard | src/acp.c:82-85 | A turn counts as cancelled by the client exactly when some line since its start is session/cancel. |
| Acp.Server.TakeLine | src/acp.c:67-91 | A line leaves the books balanced: requests heard are those answered, those being served and those queued, in order. |
| Acp.Server.TakeLines | src/acp.c:67-91 | All complete lines are looked at, in order, and the rest is kept. |
| Acp.Server.Fill | src/acp.c:94-109 | Reading any amount keeps the invariant and the order of the queue; only the end of input or a failed read ends it. |
| Acp.Server.Search | src/acp.c:117-125 | The first message wanted leaves the queue; without an id the responses before it are dropped, with one everything else stays in order. |
| Acp.Server.Next | src/acp.c:115-129 | The next message wanted, from the queue or from what arrives: with an id the first response to it and nothing else is removed; without one the first that is no response, and it counts as taken; none only at the end of input. |
| Acp.Server.CallClient | src/acp.c:132-143 | A call gets a fresh id and only a response to that id; all other messages stay queued in order. |
| Acp.CallsDiffer | src/acp.c:132-138 | No id is used for two calls. |
| Acp.Server.OnTool | src/acp.c:198-210 | A call is announced as pending or in progress under a number of its own. |
| Acp.Server.OnAllow | src/acp.c:269-298 | A pending call goes on exactly when the response to this question chooses to allow it, and is then reported to run. |
| Acp.Server.OnDone | src/acp.c:212-224 | A running or refused call gets its one final status, failed or completed as it ended. |
| Acp.Server.OnRead | src/acp.c:235-248 | Text comes only from a response to this call's own fresh id, without an error and with content; all other messages stay queued in order. |
| Acp.Server.OnWrite | src/acp.c:250-259 | A write succeeded exactly when the response to this call's own fresh id carries no error; all other messages stay queued in order. |
| Acp.Server.Denied | src/myra.c:577-601 | A call is refused exactly in read-only mode, or where the user is asked and the response to this very question does not allow it; it is reported to run exactly when it may. |
| Acp.Server.RunTool | src/myra.c:661-718 | A tool acts only while its call is reported to run; one that is refused, or mutates in read-only mode, does nothing and fails; without file service a call fails exactly when its work does. |
| Acp.Server.RunRead | src/myra.c:667-678 | Text that the client gives is used; what it refuses is read from disk exactly once, but outside the working directory without all permissions never, and then the call fails. |
| Acp.Server.RunAllowed | src/myra.c:683-716 | Files that the client serves are written through it and never on disk, and the call fails unless the client took the text; all other work is done once, and the call fails exactly when it does. |
| Acp.Server.RunMutating | src/myra.c:679-716 | A call that is refused, or in read-only mode, does nothing and fails; one that may run acts, or fails at the client, and without file service fails exactly when its work does. |
| Acp.Server.UseTool | src/myra.c:1456-1464 | Unless the turn was interrupted or the tool is unknown, a call is announced, as pending exactly when the user is asked; what is refused fails, and what ran ends as completed or failed as its work did. |
| Acp.Server.Turn | src/acp.c:374-392 | All actions of a turn are carried out in order, with nothing else shown: text is sent, and each known tool is used unless the turn was interrupted by then. |
| Acp.Server.Prompt | src/acp.c:374-392 | A turn is answered once, as cancelled exactly when session/cancel or SIGINT came while it ran, else as failed exactly when it failed, else as ended; and all its actions were carried out. |
| Acp.Server.NewSession | src/acp.c:333-347 | One answer; a session that can be entered gets the next number and counts its calls from 0. |
| Acp.Server.Dispatch | src/acp.c:398-420 | A request is answered once with its id: initialize with success, anything before it with an error, session/new with success exactly when the directory can be entered, session/prompt for this session as its turn ended, its actions carried out, all else with an error; a notification is not answered. |
| Acp.Run | src/acp.c:394-425 | Over any run: the messages handled are those in what was read, once and in order; each request among them is answered as it calls for, in order, and no other id is; every announced call is over, no tool acts early, ids of calls are fresh, and all input is read unless reading fails. |

## Left out

- libcurl, sockets, real time and back-off sleeps: an HTTP attempt is any outcome, and a deadline is a
  bound on how often a wait can be resumed.
- fork, exec, signals and process groups (`tool_shell`, `kill_group`, `reap`, the first half of the MCP
  `start`): operating system behaviour. An interrupt may come at every poll; in the ACP server, SIGINT at every read.
- Files and paths (`spit`, `slurp`, `realpath`, `outside_cwd`, saved state): whether a path is outside is
  an input; file contents matter only to the read tool's shortcut.
- The cJSON parser and printer: parsing is an arbitrary function from lines to messages, printing one to
  lines without a newline; messages have the fields looked at, well typed. A session's name is the
  number it stands for, and a numeric id its integer part.
- malloc, realloc and the growable `buf`: sequences, which cannot fail to grow. `int` and `size_t`
  counters are unbounded.
- Reads and writes that a signal interrupts for ever: only finitely many interruptions are modelled.
- The REPL, options, completion, colours, usage and cost, notes on stderr, provider selection.
- Stream.Receiver.StreamEvent: `reasoning_details`, extra text fields and usage of an event are passed over;
  text and tool calls, their order and all else are modelled.
- Stream.Receiver.Result: the reply has content, tool calls and the reason to end, and not the fields above.
- Stream.Transfer: nothing is said of a transfer that is cut off for its size but that.
- MCP results other than tool pages, tool descriptions and schemas: `Registry` takes any sequence of pages.
- scripts/agent.py: the same machines in Python, with a reader thread; the C protocol is modelled.
- Render.Renderer.End: `out` stands for what was written since the renderer was last zeroed; escaping and
  markdown are taken as switched on.
- Conversation.Agent.RunTool: a tool's text and failure are arbitrary; `Acp.Server.RunTool` models when a
  tool acts, not what it does.
- Acp.Server.Turn: what the model asks for during a prompt is any finite sequence of waiting, text and tool
  calls; that a turn is finite, and which requests it makes, is proved in `Conversation`.
- Reading.ToolRead: a cap over 64 MB is excluded, as src/myra.c:1594-1596 does; the file does not change
  while it is read.
- Escape.Escape: a NUL ends the text in C, so text is bytes without NUL.
