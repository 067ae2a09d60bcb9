# agentX chat client core, in Dafny

This project models the non-graphical core of the agentX desktop chat client.
The client lets a user talk to a local language-model server and stores every
conversation turn on disk. It reloads past conversations at startup and has a
small file browser for picking attachments. The model has six parts:

- **Messages** (`message.dfy`). A message has a role, its text, a list of
  attached paths, an enabled flag and the file it lives in. The model covers
  the constructor defaults, attaching and detaching, the two dictionary
  forms, the 40-character preview and the role icon.
- **Contexts** (`context.dfy`). A conversation is a list of timestamped
  messages. It grows by appending and exports the records of its enabled
  messages.
- **History** (`history.dfy`). Loads every past conversation under a user's
  session folder. Each readable subfolder is one conversation, taken in name
  order. Within a subfolder, each `.json` file is one message, also in name
  order.
- **Session** (`session.dfy`). Covers the session folder's name, the message
  file names, and the step that appends a message, points it at its file and
  writes its record.
- **Streaming** (`streaming.dfy`). The streaming worker, written as a fold
  over the fragments the model server sends. Each fragment is tagged with its
  channel.
  - The user message is committed first.
  - Thinking text and answer text go into two accumulating messages.
  - The thinking message is committed each time the stream switches into
    content.
  - The answer is committed when the stream ends or is interrupted.

  The loop is `FoldWith` applied to the loop body `Step`. Its properties are
  proved for any loop body that has the step's properties, and then for
  `Step`. `Respond` is the worker once the stripped prompt is known to have
  visible text.
- **FileExplorer** (`file_explorer.dfy`). A browser-style history of visited
  directories: change directory, back, forward, parent and home. It also has
  the button-enable predicates, the sorted directory listing, the
  directories-first tree, and recovering a name from a tree label.

Supporting modules:

- `wrappers.dfy` holds `Option` and `Result`.
- `strings.dfy` has the Python string operations used: `strip`, `split` and
  `replace`.
- `ordering.dfy` has Python's string order and `list.sort`.
- `seqs.dfy` has the list comprehensions, with and without a condition.
- `filesystem.dfy` is an abstract filesystem. It holds the sets of
  directories and files and a map from each listable directory to its
  listing.

Effects become parameters:

- **Filesystem.** `FileSystem` is a value.
- **File reads in the history loader.** `read` is a function from path to an
  optional message. Turning the name's timestamp text into a time,
  with `float` and then `datetime.fromtimestamp`, is the predicate
  `parsesAsTime`. It fails when either call raises.
- **Clock.** `clock` maps the number of the commit in the current turn to
  its timestamp text.
- **Network stream.** It is a sequence of `Event`s. The stream's ending is
  either `Exhausted` or `Failed`. An optional `cancel` index names the first
  fragment the loop sees after the streaming flag was cleared.
- **Home directory.** It is an argument.

Writes are returned as data: a `Written` holds a path and the message
whose record (`Messages.Serialize` of it) went into that file.

### Aliasing of the streamed messages

The worker appends the same thinking-message object to the context at every
switch into content. It keeps changing that object afterwards. The model keeps
two things apart:

- the log of the context as each append left it, which is what went into each
  file;
- which of the three objects (user, thinking, answer) each new entry is.

The context the program holds afterwards is the `Visible` view. Every new
entry there shows the final state of its object.

### Behaviour of the code as written

- **Only the new user message is sent** in the request, not the enabled
  history (`src/agentx/session.py:207`).
- **The thinking message is committed on any switch into content.** This
  includes a stream whose first fragment is content, because the last channel
  starts out empty. So a content-only reply still commits an empty, disabled
  thinking message (`Streaming.ScenarioContentOnly`). A switch from a
  tool channel into content commits it again.
- **A message file that cannot be read or parsed is not skipped.** Nothing
  catches the error, so the whole history load fails (`History.LoadMessages`
  returns the path of the first failing file). A subfolder that cannot be
  listed is skipped.
- **A blank prompt leaves the streaming flag set.** The worker returns before
  its `try`/`finally`.
- **The role icons are mis-encoded text, not emoji.** Each literal in
  `src/agentx/message.py:153-157` is the UTF-8 encoding of the intended emoji
  read back as Windows-1254. The user icon is U+011F U+0178 U+2018 U+00A4.
  The assistant icon is U+011F U+0178 U+00A4 U+2013. The system icon is
  U+00E2 U+0161 U+2122 U+00EF U+00B8. `Messages.RoleIcon` returns exactly
  these strings.
- **Refreshing the context view raises after every commit.**
  `refresh_context_gui` calls `Context._to_gui`
  (`src/agentx/session.py:50`), but `Context` only defines `to_gui`
  (`src/agentx/context.py:38`). See "## Left out" for what this means for
  the worker.

## Model

| member | source | states |
|---|---|---|
| Messages.New | src/agentx/message.py:10-29 | Without an attachments argument the list is empty; the message is enabled and has no file unless told otherwise; role and content are kept |
| Messages.NewCoversAll | src/agentx/message.py:10-29 | Every message is the constructor applied to its own role, content, attachments, enabled flag and file |
| Messages.NewRecord | src/agentx/message.py:10-86 | A message built with the defaults is written as enabled with a null file, and its request form holds just its role and content |
| Messages.Attach | src/agentx/message.py:44-50 | The path is appended at the end; earlier attachments and every other field are unchanged |
| Messages.RemoveFirst | src/agentx/message.py:58-59 | Removes exactly the first occurrence of the path, keeping the order of the rest; the multiset loses one copy; a missing path changes nothing |
| Messages.Detach | src/agentx/message.py:52-59 | A path that is not attached leaves the message unchanged; otherwise only its first occurrence is dropped |
| Messages.AttachThenDetach | src/agentx/message.py:44-59 | Attaching a path not yet attached and then detaching it gives back the original message |
| Messages.Serialize | src/agentx/message.py:61-76 | The record has exactly the keys role, content, enabled and file, never attachments; an absent file is null |
| Messages.SerializeDeterminesFields | src/agentx/message.py:71-76 | Two messages have equal records if and only if they agree on role, content, enabled flag and file |
| Messages.ToJson | src/agentx/message.py:78-86 | The request form has exactly role, content and an empty-string attachments field, omitting enabled and file |
| Messages.ToJsonDependsOnRoleAndContent | src/agentx/message.py:82-86 | Two messages have equal request forms if and only if they have the same role and content |
| Messages.Preview | src/agentx/message.py:161-162 | Content of at most 40 characters is shown whole; longer content shows its first 40 characters then "...", 43 in all |
| Messages.RoleIcon | src/agentx/message.py:150-157 | "user" and "assistant" get their own icons; every other role, and only those, gets the system icon; each icon is the exact code-point string in the file |
| Contexts.Empty | src/agentx/context.py:17-18 | A new context holds no messages |
| Contexts.AddMessage | src/agentx/context.py:20-24 | One more (time, message) pair at the end; all earlier pairs unchanged |
| Contexts.EnabledRecords | src/agentx/context.py:36 | At most one record per message, and every record produced is marked enabled |
| Contexts.EnabledRecordsMembership | src/agentx/context.py:36 | The record of every enabled message is in the output, and every output record is the record of some enabled message |
| Contexts.GetMessages | src/agentx/context.py:26-36 | No more records than messages, each one marked enabled |
| Contexts.EnabledRecordsAppend | src/agentx/context.py:36 | The export of a concatenation is the concatenation of the exports, so conversation order is kept |
| Contexts.GetMessagesAfterAdd | src/agentx/context.py:20-36 | Adding a message extends the export by its record exactly when it is enabled, and leaves the export unchanged otherwise |
| Contexts.GetMessagesAllEnabled | src/agentx/context.py:36 | The export has one record per message if and only if every message is enabled |
| Ordering.Sort | src/agentx/file_explorer.py:36 | `list.sort` on names: the result is ascending in Python's string order and is a permutation of the input |
| Strings.Strip | src/agentx/session.py:185 | The result is the input without its leading and trailing whitespace, which it keeps in between; it is empty exactly when the input is all whitespace |
| History.TimestampKey | src/agentx/history.py:69 | The key is the longest prefix of the file name without '_', and is followed by '_' whenever it is shorter than the name |
| History.JsonFiles | src/agentx/history.py:52-60 | The message files are exactly the ".json" names of the listing, each as often as listed, in ascending order |
| History.Subdirectories | src/agentx/history.py:34-44 | The context folders are exactly the listed names that are directories, in ascending order |
| History.LoadMessages | src/agentx/history.py:63-74 | The load succeeds if and only if every file can be read and parsed and its timestamp parses; then entry j has file j's timestamp key and message; otherwise the error is the first failing file |
| History.ListableMembership | src/agentx/history.py:52-57 | A folder is loaded if and only if it is a context folder whose listing succeeds |
| History.LoadContexts | src/agentx/history.py:46-77 | Success if and only if every listable folder loads; then one context per listable folder, in order, each the one its folder loads to; otherwise the error is that of the first failing folder, every earlier folder loading |
| History.Load | src/agentx/history.py:23-77 | No records when the root is missing or cannot be listed; otherwise the loaded folders are sorted and are exactly the listable subdirectories; the result is their contexts, or the error of the first folder that fails, every earlier one loading |
| Session.SessionFolderName | src/agentx/session.py:37 | "session_" then the start time with spaces turned into '_' and colons into '-', character by character; the name holds neither |
| Session.MessageFileNameRoundTrip | src/agentx/session.py:59-61 | A file name the session writes passes the loader's ".json" filter, and the loader's timestamp key recovers the commit time whenever that time holds no '_' |
| Session.AddMessageToContext | src/agentx/session.py:53-64 | The message is appended at the given time with its file set to the new path, and the record of that updated message is written to that path |
| Session.AddTwice | src/agentx/session.py:57-62 | Committing the same message twice gives two new entries with its content after the unchanged earlier ones; which path each entry shows is left to `Streaming.Visible` |
| Streaming.CommitMeaning | src/agentx/session.py:57-64 | Committing one of the worker's messages appends one log entry and one write, records which object it was, and changes only that object's file |
| Streaming.ChannelOf | src/agentx/session.py:212-218 | The field "thinking" is the thinking channel and "content" the content channel, each exactly; any field other than the five named ones is `Unknown`; the field name is recovered from the channel |
| Streaming.ChannelOfInjective | src/agentx/session.py:218-220 | Two fields give the same channel exactly when they are the same string, so the switch test on channels is the loop's string comparison |
| Streaming.ChannelOfFieldName | src/agentx/session.py:212-285 | Every channel the decoder can produce decodes back from its own field name |
| Streaming.StepMeaning | src/agentx/session.py:217-285 | One fragment grows the accumulator of its channel by its text; it commits the thinking message exactly when it switches into content from anything else; it remembers its channel |
| Streaming.FoldMeaning | src/agentx/session.py:206-286 | After the loop, the thinking and answer texts are the concatenated texts of their channels; the thinking message is committed once per switch into content, only appending; the user message is untouched |
| Streaming.FoldTexts | src/agentx/session.py:217-285 | For any loop body that grows the accumulator of each fragment's channel by its text, the loop leaves each accumulator holding exactly the concatenated text of its channel and remembers the last channel |
| Streaming.FoldCommits | src/agentx/session.py:217-285 | For any loop body that commits the thinking message exactly on a switch into content, the loop commits it once per switch, in order, only appending to the log |
| Streaming.FoldKeeps | src/agentx/session.py:217-285 | For any loop body that leaves them alone, the loop never touches the user message or the answer's file, and the assistant messages keep their role and enabled flag |
| Streaming.Processed | src/agentx/session.py:209-210 | The loop handles every fragment unless the flag is seen cleared before the stream ends, and then exactly the fragments before that point, no more and no fewer |
| Streaming.InterruptStreaming | src/agentx/session.py:347-353 | Interrupting after some fragments stops the loop at the next one, or earlier if it was already told to stop; an earlier stop is kept unchanged |
| Streaming.InterruptTwice | src/agentx/session.py:347-353 | Interrupting again later leaves the stop where the first interrupt put it |
| Streaming.InterruptStopsWorker | src/agentx/session.py:209-210 | An interrupt while fragments are still to come ends the worker exactly as a stream that ran out after the fragments before the stop |
| Streaming.BeginMeaning | src/agentx/session.py:196-202 | Before the first fragment, the user message with the prompt is committed and written, both accumulators are empty, and the thinking one is disabled |
| Streaming.WorkerNoInput | src/agentx/session.py:176-188 | A prompt that is blank after stripping changes no context, writes and sends nothing, and leaves the streaming flag set |
| Streaming.FinalMeaning | src/agentx/session.py:196-291 | The final turn commits the user message, then thinking once per switch into content, then the answer unless receiving failed; each object then holds the stripped prompt, all thinking text, or all answer text |
| Streaming.RespondCommits | src/agentx/session.py:196-301 | For the stripped prompt: the flag ends cleared; the new entries are user, then thinking per switch into content, then the answer unless the stream failed; one file per entry; earlier entries unchanged |
| Streaming.RespondContents | src/agentx/session.py:196-291 | For the stripped prompt: each new entry shows the prompt (enabled), all thinking text (disabled) or all answer text (enabled), and the user message is the only one sent |
| Streaming.RespondOneSwitch | src/agentx/session.py:204-262 | A stream that runs out after exactly one switch into content gives three new entries: the prompt, the thinking text and the answer text |
| Streaming.WorkerCommits | src/agentx/session.py:176-301 | For a non-blank prompt: the flag ends cleared; the new entries are user, then thinking per switch into content, then the answer unless the stream failed; one file per entry; earlier entries unchanged |
| Streaming.WorkerContents | src/agentx/session.py:196-291 | Each new entry shows the stripped prompt (enabled), all thinking text (disabled) or all answer text (enabled), and the user message is the only one sent |
| Streaming.WorkerCancel | src/agentx/session.py:209-210 | A worker that sees the flag cleared at fragment k ends as if the stream had simply stopped after k fragments, with the answer committed |
| Streaming.ScenarioThinkingThenContent | src/agentx/session.py:220-262 | A thinking fragment then a content fragment give three new entries: the prompt, the disabled thought and the enabled answer |
| Streaming.ScenarioContentOnly | src/agentx/session.py:204-262 | Two content fragments still commit an empty, disabled thinking message before the answer, which is the two texts joined |
| FileExplorer.Init | src/agentx/file_explorer.py:17-25 | A new explorer shows the start directory, which is its whole history; the invariant holds and neither button is enabled |
| FileExplorer.ChangeDirectory | src/agentx/file_explorer.py:59-75 | A non-directory is refused with nothing changed; a directory drops every entry after the current one, is appended even when already shown, and becomes current at the last index |
| FileExplorer.NavigateBack | src/agentx/file_explorer.py:98-108 | Succeeds if and only if the index is above 0, then moves one entry back; otherwise nothing changes; the history is never changed |
| FileExplorer.NavigateForward | src/agentx/file_explorer.py:110-120 | Succeeds if and only if the index is below the last, then moves one entry forward; otherwise nothing changes; the history is never changed |
| FileExplorer.NavigateParent | src/agentx/file_explorer.py:129-138 | At the root it fails with nothing changed; elsewhere it is exactly a change to the parent directory |
| FileExplorer.NavigateHome | src/agentx/file_explorer.py:59-127 | A change to the home directory, with the result ignored: when home is a directory, the history is cut after the current entry, home is appended and becomes current at the next index; otherwise nothing changes |
| FileExplorer.ButtonsMatchNavigation | src/agentx/file_explorer.py:364-379 | The back button is enabled exactly when going back would succeed, and the forward button exactly when going forward would |
| FileExplorer.BackThenForward | src/agentx/file_explorer.py:104-120 | A successful back followed by forward restores the same state, history included |
| FileExplorer.ForwardThenBack | src/agentx/file_explorer.py:104-120 | A successful forward followed by back restores the same state, history included |
| FileExplorer.ChangeThenBack | src/agentx/file_explorer.py:66-75 | After a successful change, back shows the previous directory at the previous index, but the forward entries are gone |
| FileExplorer.NavigationKeepsValid | src/agentx/file_explorer.py:59-138 | Every navigation operation keeps the index in range and pointing at the current directory |
| FileExplorer.ListDirectory | src/agentx/file_explorer.py:27-57 | No rows when the directory cannot be listed; otherwise the rows are in ascending name order, are the listed names that still exist, each exactly as often as listed, and each gives the right path and directory flag |
| FileExplorer.PartitionPermutes | src/agentx/file_explorer.py:268-269 | The directories and the files of a listing, side by side, are a permutation of the listing |
| FileExplorer.TreeOrder | src/agentx/file_explorer.py:264-294 | The tree is a permutation of the listing with every directory before every file, each group in listing order |
| FileExplorer.ExtractName | src/agentx/file_explorer.py:303-305 | A label with a space yields what follows its first space; a label without one yields itself |
| FileExplorer.Label | src/agentx/file_explorer.py:271-294 | A row's text starts with the folder icon exactly for directories, ends with the name, and maps back to the name |
| FileExplorer.PopulateTree | src/agentx/file_explorer.py:256-294 | One row per listed item; the folder-icon rows come first, exactly one per directory; the names the rows stand for are the directories' names then the files' names, each in listing order, so they rearrange the listing's names |
| FileExplorer.DoubleClick | src/agentx/file_explorer.py:296-313 | With no selection nothing changes; a selected label whose name names a directory under the current one is exactly a change into it, history included; anything else changes nothing |
| FileExplorer.DoubleClickRow | src/agentx/file_explorer.py:300-310 | Double-clicking a directory row of the current listing changes into that directory; double-clicking a file row changes nothing |

## Left out

- **Graphical interface.** All Tk widget construction, layout, styling and
  output-text insertion is left out. This covers `layout.py`, the `to_gui`
  methods and `refresh_context_gui`. The preview, icon, label and button
  predicates are kept as pure functions.
- **`ollama_client.py`.** This is an older copy of the streaming loop that
  only writes to widgets, plus a network handshake. `perform_service_handshake`
  in `session.py` is network I/O.
- **Network transport and channel detection.** The request and the reflective
  detection of the populated field are left out. Fragments are given as
  `Event`s, and a fragment with no populated field is `Silent`.
- **Threading.** Spawning the worker thread (`stream_ollama_response`) is left
  out. The shared streaming flag becomes the `cancel` index and the outcome's
  `streaming` field.
- **Floats and clocks.** `datetime.now()`, `timestamp()`, `fromtimestamp` and
  `float` are not modelled. Times are opaque text and come from the `clock`
  parameter. A history entry's time is its file name's timestamp key, not a
  parsed datetime. The KB/MB size text of the file tree and the `size` field
  of listing rows are left out.
- **File formats.** Message files hold the Python `repr` of a dict, while the
  loader reads them as JSON. `Message.from_dict` and `llm_message_dict` are
  called but not defined in `message.py`. So reading a message file is the
  uninterpreted `read` parameter, no round trip between writing and reading is
  claimed, and a write is recorded as the path and the message whose record
  went into the file. The JSON text that
  `get_messages` returns is modelled as its list of records.
- **Real filesystem details.** `os.path.abspath` normalisation,
  `os.makedirs`, the user name and working directory, and `Path.home()` are
  left out. Paths in the history and the explorer are already-normalised
  component lists. Message file paths in the session are text joined with
  "/". Write failures are not modelled.
- **`open_file` and `get_current_path` in `file_explorer.py`.** The first
  only reads a file's text. The second is the `current` field.
- **Console output.** The `print` calls are left out. These are the
  unknown-channel notices in the worker, the error report at
  `src/agentx/session.py:297`, the handshake messages, "Streaming already in
  progress" and "Interrupting streaming..." at line 352. They write only to
  the console and change no modelled state.
- **Startup and configuration.** `config.py` and `main.py` are library
  wrappers and file I/O.
- History.LoadMessages: the program raises an exception on the first file
  that fails; the model returns that file's path as an error instead.
- Session.AddMessageToContext: treats the view refresh at
  `src/agentx/session.py:65` as having no effect. As written, the refresh
  raises `AttributeError` after the file is written, because `Context` has
  no `_to_gui`. The model has the commit complete and the caller carry on.
- Streaming.Respond: models the worker as it would run if committing did not
  raise. As written, the user message is appended and written, and then
  the refresh raises at `src/agentx/session.py:202`. Control reaches the
  `except` at line 294. Nothing is sent, no fragment is handled, and the
  flag is cleared. `llm_message_dict` at line 207 is also undefined. The
  `sent`, commit and content statements of `Streaming.RespondCommits`,
  `Streaming.RespondContents`, `Streaming.WorkerCommits` and
  `Streaming.WorkerContents` describe that intended run.
- Streaming.WorkerCommits: states how many files are written and in which
  order objects are committed, not the text of each written record. Each
  record is the snapshot of its object at commit time, as
  `Session.AddMessageToContext` states.
- Streaming.WorkerCommits: a receive error is modelled only after the last
  fragment the loop handled, as the `Failed` ending. Errors raised while
  writing a message file are not modelled.
- FileExplorer.ListDirectory: an entry that disappears between listing and
  inspection is dropped, which is the only way `os.path.getsize` fails in
  the model. Other permission failures are not distinguished.
