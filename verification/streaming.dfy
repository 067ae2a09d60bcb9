/**
 The streaming worker with the window and the network taken away: a fold
 over the events the model server sends, each tagged with its channel,
 stopped early when the streaming flag is seen cleared.
 */
module Streaming {
  import opened Wrappers
  import opened Strings
  import opened Messages
  import opened Contexts
  import opened Session

  /**
   The first populated field of a response fragment. `Unknown` stands for a
   field other than the five named ones; `ChannelOf` never builds it for
   their names.
   */
  datatype Channel = Thinking | Content | ToolName | ToolCalls | Images | Unknown(name: string)

  /** The field name the loop compares and matches on. */
  function FieldName(c: Channel): string {
    match c
    case Thinking => "thinking"
    case Content => "content"
    case ToolName => "tool_name"
    case ToolCalls => "tool_calls"
    case Images => "images"
    case Unknown(name) => name
  }

  predicate Named(field: string) {
    field == "thinking" || field == "content" || field == "tool_name" || field == "tool_calls" || field == "images"
  }

  /** The channel of a populated field: the loop's string matches on "thinking" and "content" become tags. */
  function ChannelOf(field: string): (r: Channel)
    ensures r == Thinking <==> field == "thinking"
    ensures r == Content <==> field == "content"
    ensures r.Unknown? <==> !Named(field)
    ensures FieldName(r) == field
  {
    match field
    case "thinking" => Thinking
    case "content" => Content
    case "tool_name" => ToolName
    case "tool_calls" => ToolCalls
    case "images" => Images
    case _ => Unknown(field)
  }

  /** Every channel the decoder can produce is the decoding of its own field name. */
  lemma ChannelOfFieldName(c: Channel)
    requires c.Unknown? ==> !Named(c.name)
    ensures ChannelOf(FieldName(c)) == c
  {
  }

  /** Two fields are the same channel exactly when they are the same string, as `channel != last_channel` compares them. */
  lemma ChannelOfInjective(f: string, g: string)
    ensures ChannelOf(f) == ChannelOf(g) <==> f == g
  {
    assert FieldName(ChannelOf(f)) == f && FieldName(ChannelOf(g)) == g;
  }

  /** A fragment: its channel and, for thinking and content, the text it carries; or a fragment with no populated field. */
  datatype Event = Part(channel: Channel, text: string) | Silent

  /** How the stream stopped when the loop was not interrupted: it ran out, or receiving raised. */
  datatype Ending = Exhausted | Failed

  /** Which of the worker's three message objects a context entry refers to. */
  datatype Slot = UserSlot | ThinkingSlot | ResponseSlot

  /**
   The worker's state. `log` is the context as each append left it: its new
   entries hold the messages as they were when committed, which is what
   went into their files. `slots` says which object each new entry is.
   */
  datatype Turn = Turn(
    user: Message,
    thinking: Message,
    response: Message,
    last: Option<Channel>,
    log: Context,
    slots: seq<Slot>,
    writes: seq<Written>)

  function Current(t: Turn, s: Slot): Message {
    match s
    case UserSlot => t.user
    case ThinkingSlot => t.thinking
    case ResponseSlot => t.response
  }

  /** Commits one of the three messages; the clock gives the time of the k-th commit of the turn. */
  function Commit(t: Turn, s: Slot, folder: string, clock: nat -> Timestamp): Turn
  {
    var a := AddMessageToContext(t.log, folder, clock(|t.slots|), Current(t, s));
    var t' := t.(log := a.context, slots := t.slots + [s], writes := t.writes + [a.written]);
    match s
    case UserSlot => t'.(user := a.message)
    case ThinkingSlot => t'.(thinking := a.message)
    case ResponseSlot => t'.(response := a.message)
  }

  /**
   A commit appends one log entry and one write, records which object it
   was, and changes only that object's file.
   */
  lemma CommitMeaning(t: Turn, s: Slot, folder: string, clock: nat -> Timestamp)
    ensures var r := Commit(t, s, folder, clock);
      && r.slots == t.slots + [s]
      && |r.log.entries| == |t.log.entries| + 1 && r.log.entries[..|t.log.entries|] == t.log.entries
      && |r.writes| == |t.writes| + 1
      && r.last == t.last
      && (forall s' :: s' != s ==> Current(r, s') == Current(t, s'))
      && Current(r, s) == Current(t, s).(file := Current(r, s).file) && Current(r, s).file.Some?
  {
  }

  /** One pass of the loop body for a fragment received while the flag is set. */
  function Step(t: Turn, e: Event, folder: string, clock: nat -> Timestamp): Turn {
    match e
    case Silent => t
    case Part(ch, text) =>
      var t' := if Some(ch) != t.last && ch == Content then Commit(t, ThinkingSlot, folder, clock) else t;
      match ch
      case Thinking => t'.(thinking := t'.thinking.(content := t'.thinking.content + text), last := Some(ch))
      case Content => t'.(response := t'.response.(content := t'.response.content + text), last := Some(ch))
      case _ => t'.(last := Some(ch))
  }

  /** A loop over the fragments, first to last, with `step` as its body. */
  function FoldWith(step: (Turn, Event) -> Turn, t: Turn, evs: seq<Event>): Turn
    decreases |evs|
  {
    if |evs| == 0 then t else step(FoldWith(step, t, evs[..|evs| - 1]), evs[|evs| - 1])
  }

  /** The worker's loop body, for one folder and clock. */
  function Body(folder: string, clock: nat -> Timestamp): (Turn, Event) -> Turn {
    (p, e) => Step(p, e, folder, clock)
  }

  /** The worker's loop over the fragments. */
  function Fold(t: Turn, evs: seq<Event>, folder: string, clock: nat -> Timestamp): Turn {
    FoldWith(Body(folder, clock), t, evs)
  }

  // ----- Reference definitions the loop is compared with -----

  /** The text the fragments of channel `ch` carry, in order; empty for any other fragment. */
  function Piece(e: Event, ch: Channel): string {
    if e.Part? && e.channel == ch then e.text else ""
  }

  /** The thinking text the fragments carry, in order. */
  function ThinkingText(evs: seq<Event>): string {
    if |evs| == 0 then "" else ThinkingText(evs[..|evs| - 1]) + Piece(evs[|evs| - 1], Thinking)
  }

  /** The answer text the fragments carry, in order. */
  function ContentText(evs: seq<Event>): string {
    if |evs| == 0 then "" else ContentText(evs[..|evs| - 1]) + Piece(evs[|evs| - 1], Content)
  }

  /** The channel of the last fragment that had one, or `init` when none did. */
  function LastChannel(init: Option<Channel>, evs: seq<Event>): Option<Channel> {
    if |evs| == 0 then init
    else if evs[|evs| - 1].Part? then Some(evs[|evs| - 1].channel)
    else LastChannel(init, evs[..|evs| - 1])
  }

  /** Position `i` is a content fragment that follows anything other than content. */
  predicate EntersContent(init: Option<Channel>, evs: seq<Event>, i: nat)
    requires i < |evs|
  {
    evs[i].Part? && evs[i].channel == Content && LastChannel(init, evs[..i]) != Some(Content)
  }

  /** The positions at which the stream switches into content. */
  function Transitions(init: Option<Channel>, evs: seq<Event>): set<nat> {
    set i: nat | i < |evs| && EntersContent(init, evs, i)
  }

  // ----- The loop against the references -----

  lemma TransitionsSnoc(init: Option<Channel>, evs: seq<Event>, e: Event)
    ensures |Transitions(init, evs + [e])| ==
      |Transitions(init, evs)| + (if EntersContent(init, evs + [e], |evs|) then 1 else 0)
  {
    var s := evs + [e];
    TransitionsSnocSet(init, evs, e);
    if EntersContent(init, s, |evs|) {
      assert |evs| !in Transitions(init, evs);
    }
  }

  lemma TransitionsSnocSet(init: Option<Channel>, evs: seq<Event>, e: Event)
    ensures Transitions(init, evs + [e]) ==
      Transitions(init, evs) + (if EntersContent(init, evs + [e], |evs|) then {|evs|} else {})
  {
    var s := evs + [e];
    forall i: nat | i < |evs| ensures EntersContent(init, s, i) == EntersContent(init, evs, i) {
      assert s[..i] == evs[..i];
    }
  }

  /** The facts one step of the loop keeps, for the worker's own messages. */
  predicate Shaped(t: Turn) {
    && t.thinking.role == "assistant" && !t.thinking.enabled
    && t.response.role == "assistant" && t.response.enabled
  }

  /** One step: the accumulator of the fragment's channel grows by its text; a switch into content commits thinking. */
  lemma StepMeaning(p: Turn, e: Event, folder: string, clock: nat -> Timestamp)
    ensures var r := Step(p, e, folder, clock);
      var enters := e.Part? && e.channel == Content && p.last != Some(Content);
      && r.thinking.content == p.thinking.content + Piece(e, Thinking)
      && r.response.content == p.response.content + Piece(e, Content)
      && r.last == (if e.Part? then Some(e.channel) else p.last)
      && r.slots == p.slots + (if enters then [ThinkingSlot] else [])
      && |r.log.entries| == |p.log.entries| + (if enters then 1 else 0)
      && r.log.entries[..|p.log.entries|] == p.log.entries
      && |r.writes| == |p.writes| + (if enters then 1 else 0)
      && r.user == p.user
      && r.response.file == p.response.file
      && (Shaped(p) ==> Shaped(r))
  {
    if e.Part? && e.channel == Content && p.last != Some(Content) {
      var c := Commit(p, ThinkingSlot, folder, clock);
      CommitMeaning(p, ThinkingSlot, folder, clock);
      assert Current(c, UserSlot) == p.user;
      assert Current(c, ResponseSlot) == p.response;
    }
  }

  /** What one pass of a loop body does to the accumulators and the last channel. */
  predicate TextsStep(p: Turn, e: Event, r: Turn) {
    && r.thinking.content == p.thinking.content + Piece(e, Thinking)
    && r.response.content == p.response.content + Piece(e, Content)
    && r.last == (if e.Part? then Some(e.channel) else p.last)
  }

  /** What one pass of a loop body commits: the thinking message, exactly on a switch into content. */
  predicate CommitsStep(p: Turn, e: Event, r: Turn) {
    var enters := e.Part? && e.channel == Content && p.last != Some(Content);
    && r.last == (if e.Part? then Some(e.channel) else p.last)
    && r.slots == p.slots + (if enters then [ThinkingSlot] else [])
    && |r.log.entries| == |p.log.entries| + (if enters then 1 else 0)
    && r.log.entries[..|p.log.entries|] == p.log.entries
    && |r.writes| == |p.writes| + (if enters then 1 else 0)
  }

  /** What one pass of a loop body leaves alone. */
  predicate KeepsStep(p: Turn, r: Turn) {
    && r.user == p.user
    && r.response.file == p.response.file
    && (Shaped(p) ==> Shaped(r))
  }

  lemma AppendAssociates(a: string, b: string, c: string)
    ensures a + b + c == a + (b + c)
  {
  }

  /** With a body that grows the accumulators, they gain exactly the text of their channels. */
  lemma {:induction false} FoldTexts(step: (Turn, Event) -> Turn, t: Turn, evs: seq<Event>)
    requires forall p, e :: TextsStep(p, e, step(p, e))
    ensures var r := FoldWith(step, t, evs);
      && r.thinking.content == t.thinking.content + ThinkingText(evs)
      && r.response.content == t.response.content + ContentText(evs)
      && r.last == LastChannel(t.last, evs)
    decreases |evs|
  {
    if |evs| > 0 {
      var init := evs[..|evs| - 1];
      var e := evs[|evs| - 1];
      FoldTexts(step, t, init);
      assert TextsStep(FoldWith(step, t, init), e, FoldWith(step, t, evs));
      AppendAssociates(t.thinking.content, ThinkingText(init), Piece(e, Thinking));
      AppendAssociates(t.response.content, ContentText(init), Piece(e, Content));
    }
  }

  /** With a body that commits on each switch into content, the loop commits once per switch, only appending. */
  lemma {:induction false} FoldCommits(step: (Turn, Event) -> Turn, t: Turn, evs: seq<Event>)
    requires forall p, e :: CommitsStep(p, e, step(p, e))
    ensures var r := FoldWith(step, t, evs);
      && r.last == LastChannel(t.last, evs)
      && r.slots == t.slots + seq(|Transitions(t.last, evs)|, _ => ThinkingSlot)
      && |r.log.entries| == |t.log.entries| + |Transitions(t.last, evs)|
      && r.log.entries[..|t.log.entries|] == t.log.entries
      && |r.writes| == |t.writes| + |Transitions(t.last, evs)|
    decreases |evs|
  {
    if |evs| > 0 {
      var n := |evs| - 1;
      var init := evs[..n];
      var e := evs[n];
      var p := FoldWith(step, t, init);
      var r := FoldWith(step, t, evs);
      FoldCommits(step, t, init);
      assert CommitsStep(p, e, r);
      TransitionsSnoc(t.last, init, e);
      assert EntersContent(t.last, evs, n) <==> e.Part? && e.channel == Content && p.last != Some(Content) by {
        assert evs[..n] == init;
      }
      assert evs == init + [e];
      var k := |Transitions(t.last, init)|;
      assert t.slots + seq(k, _ => ThinkingSlot) + [ThinkingSlot] == t.slots + seq(k + 1, _ => ThinkingSlot);
      assert r.log.entries[..|t.log.entries|] == p.log.entries[..|p.log.entries|][..|t.log.entries|];
    }
  }

  /** With a body that leaves the user message and the answer's file alone, so does the loop. */
  lemma {:induction false} FoldKeeps(step: (Turn, Event) -> Turn, t: Turn, evs: seq<Event>)
    requires forall p, e :: KeepsStep(p, step(p, e))
    ensures var r := FoldWith(step, t, evs);
      && r.user == t.user
      && r.response.file == t.response.file
      && (Shaped(t) ==> Shaped(r))
    decreases |evs|
  {
    if |evs| > 0 {
      var init := evs[..|evs| - 1];
      FoldKeeps(step, t, init);
      assert KeepsStep(FoldWith(step, t, init), FoldWith(step, t, evs));
    }
  }

  /**
   What the loop does, measured against the references: each accumulator
   gains exactly the text of its channel, the last channel is remembered,
   and the thinking message is committed once per switch into content,
   appending to the log and touching nothing already there.
   */
  lemma FoldMeaning(t: Turn, evs: seq<Event>, folder: string, clock: nat -> Timestamp)
    ensures var r := Fold(t, evs, folder, clock);
      && r.thinking.content == t.thinking.content + ThinkingText(evs)
      && r.response.content == t.response.content + ContentText(evs)
      && r.last == LastChannel(t.last, evs)
      && r.slots == t.slots + seq(|Transitions(t.last, evs)|, _ => ThinkingSlot)
      && |r.log.entries| == |t.log.entries| + |Transitions(t.last, evs)|
      && r.log.entries[..|t.log.entries|] == t.log.entries
      && |r.writes| == |t.writes| + |Transitions(t.last, evs)|
      && r.user == t.user
      && r.response.file == t.response.file
      && (Shaped(t) ==> Shaped(r))
  {
    var step := Body(folder, clock);
    forall p, e
      ensures TextsStep(p, e, step(p, e)) && CommitsStep(p, e, step(p, e)) && KeepsStep(p, step(p, e))
    {
      StepMeaning(p, e, folder, clock);
    }
    FoldTexts(step, t, evs);
    FoldCommits(step, t, evs);
    FoldKeeps(step, t, evs);
  }

  // ----- The worker -----

  /** What the user is shown: told there was no input, finished, or ended by an error. */
  datatype Status = NoInput | Finished | Errored

  /**
   The worker's effects: the context afterwards, the files written in order,
   which object each new entry is, the messages sent in the request, and
   whether the streaming flag is left set.
   */
  datatype Outcome = Outcome(
    context: Context,
    writes: seq<Written>,
    slots: seq<Slot>,
    sent: seq<Message>,
    streaming: bool,
    status: Status)

  /**
   The context as the program sees it afterwards: the entries keep their
   times, but each new entry shows the current state of its object, so the
   thinking message appears with all the thinking text at every place it was
   appended.
   */
  function Visible(t: Turn, base: nat): Context {
    Context(Shown(t, base, |t.log.entries|))
  }

  /** The first `n` entries of the log, each as the program sees it afterwards. */
  function Shown(t: Turn, base: nat, n: nat): (r: seq<Entry>)
    requires n <= |t.log.entries|
    ensures |r| == n && forall i :: 0 <= i < n ==> r[i] == Show(t, base, i)
  {
    if n == 0 then [] else Shown(t, base, n - 1) + [Show(t, base, n - 1)]
  }

  /** Entry `i` of the log as the program sees it: a new entry shows its object's current state. */
  function Show(t: Turn, base: nat, i: nat): Entry
    requires i < |t.log.entries|
  {
    var e := t.log.entries[i];
    if i < base || i - base >= |t.slots| then e else Entry(e.ts, Current(t, t.slots[i - base]))
  }

  /** How many fragments the loop handles: it breaks at the first one received after the flag was cleared. */
  function Processed(events: seq<Event>, cancel: Option<nat>): (n: nat)
    ensures n <= |events|
    ensures n < |events| <==> cancel.Some? && cancel.value < |events|
    ensures cancel.Some? && cancel.value < |events| ==> n == cancel.value
  {
    if cancel.Some? && cancel.value < |events| then cancel.value else |events|
  }

  /**
   `interrupt_streaming` issued when `received` fragments have been handed to
   the loop: the flag is clear from then on, so the loop stops at that
   fragment, unless it was told to stop earlier.
   */
  function InterruptStreaming(received: nat, cancel: Option<nat>): (r: Option<nat>)
    ensures r.Some? && r.value <= received
    ensures cancel.Some? ==> r.value <= cancel.value
    ensures cancel.None? || cancel.value >= received ==> r == Some(received)
    ensures cancel.Some? && cancel.value < received ==> r == cancel
  {
    if cancel.Some? && cancel.value < received then cancel else Some(received)
  }

  /** Interrupting again later changes nothing: the loop stops where the first interrupt put it. */
  lemma InterruptTwice(first: nat, later: nat, cancel: Option<nat>)
    requires first <= later
    ensures InterruptStreaming(later, InterruptStreaming(first, cancel)) == InterruptStreaming(first, cancel)
  {
  }

  /** The turn after the user message is committed, before the first fragment. */
  function Begin(ctx: Context, folder: string, prompt: string, clock: nat -> Timestamp): Turn {
    var user := New("user", prompt);
    var thinking := New("assistant", "").(enabled := false);
    var response := New("assistant", "");
    Commit(Turn(user, thinking, response, None, ctx, [], []), UserSlot, folder, clock)
  }

  /**
   `stream_ollama_response_worker`. An empty prompt (after stripping) only
   shows a notice, and the flag it has just set stays set. Otherwise the user
   message is committed, sent alone, and the fragments are folded in until
   the flag is seen cleared; the answer is committed unless receiving raised;
   the flag is cleared either way.
   */
  function Worker(ctx: Context, folder: string, prompt: string, events: seq<Event>, cancel: Option<nat>,
                  ending: Ending, clock: nat -> Timestamp): Outcome
  {
    var text := Strip(prompt);
    if |text| == 0 then Outcome(ctx, [], [], [], true, NoInput)
    else Respond(ctx, folder, text, events, cancel, ending, clock)
  }

  /** The worker's effects once the stripped prompt `text` is known to have visible characters. */
  function Respond(ctx: Context, folder: string, text: string, events: seq<Event>, cancel: Option<nat>,
                   ending: Ending, clock: nat -> Timestamp): Outcome
  {
    var fin := Final(ctx, folder, text, events, cancel, ending, clock);
    Outcome(Visible(fin, |ctx.entries|), fin.writes, fin.slots, [Begin(ctx, folder, text, clock).user], false,
            if Answered(events, cancel, ending) then Finished else Errored)
  }

  // ----- What the worker does -----

  /** The turn right after the user message is committed. */
  lemma BeginMeaning(ctx: Context, folder: string, prompt: string, clock: nat -> Timestamp)
    ensures var t := Begin(ctx, folder, prompt, clock);
      && t.slots == [UserSlot] && t.last == None && |t.writes| == 1
      && |t.log.entries| == |ctx.entries| + 1 && t.log.entries[..|ctx.entries|] == ctx.entries
      && t.user.role == "user" && t.user.content == prompt && t.user.enabled && t.user.attachments == []
      && t.thinking.content == "" && t.response.content == "" && Shaped(t)
  {
    var t := Begin(ctx, folder, prompt, clock);
    assert Current(t, ThinkingSlot) == New("assistant", "").(enabled := false);
    assert Current(t, ResponseSlot) == New("assistant", "");
  }

  lemma VisibleShape(t: Turn, base: nat)
    requires |t.log.entries| == base + |t.slots|
    ensures var v := Visible(t, base);
      && |v.entries| == base + |t.slots|
      && v.entries[..base] == t.log.entries[..base]
      && forall k :: 0 <= k < |t.slots| ==> v.entries[base + k].message == Current(t, t.slots[k])
  {
    var v := Visible(t, base);
    assert forall i :: 0 <= i < base ==> v.entries[i] == t.log.entries[i];
  }

  /** The message an entry of the given slot holds at the end of the worker. */
  predicate Holds(m: Message, s: Slot, prompt: string, evs: seq<Event>) {
    match s
    case UserSlot => m.role == "user" && m.content == prompt && m.enabled && m.attachments == []
    case ThinkingSlot => m.role == "assistant" && m.content == ThinkingText(evs) && !m.enabled
    case ResponseSlot => m.role == "assistant" && m.content == ContentText(evs) && m.enabled
  }

  /** The fragments the loop handled before it stopped. */
  function Handled(events: seq<Event>, cancel: Option<nat>): seq<Event> {
    events[..Processed(events, cancel)]
  }

  /** The answer is committed unless receiving raised before the flag was seen cleared. */
  predicate Answered(events: seq<Event>, cancel: Option<nat>, ending: Ending) {
    !(Processed(events, cancel) == |events| && ending == Failed)
  }

  /** A prompt that is blank after stripping changes nothing and leaves the flag set. */
  lemma WorkerNoInput(ctx: Context, folder: string, prompt: string, events: seq<Event>, cancel: Option<nat>,
                      ending: Ending, clock: nat -> Timestamp)
    requires AllSpace(prompt)
    ensures var o := Worker(ctx, folder, prompt, events, cancel, ending, clock);
      o.context == ctx && o.writes == [] && o.sent == [] && o.streaming && o.status == NoInput
  {
  }

  /** The worker's turn when the loop and the final commit are over. */
  function Final(ctx: Context, folder: string, text: string, events: seq<Event>, cancel: Option<nat>,
                 ending: Ending, clock: nat -> Timestamp): Turn
  {
    var t := Fold(Begin(ctx, folder, text, clock), Handled(events, cancel), folder, clock);
    if Answered(events, cancel, ending) then Commit(t, ResponseSlot, folder, clock) else t
  }

  /** The final turn: the user message, thinking once per switch into content, then the answer unless receiving failed. */
  lemma FinalCommits(ctx: Context, folder: string, text: string, events: seq<Event>, cancel: Option<nat>,
                     ending: Ending, clock: nat -> Timestamp)
    ensures var fin := Final(ctx, folder, text, events, cancel, ending, clock);
      var base := |ctx.entries|;
      && fin.slots == [UserSlot] + seq(|Transitions(None, Handled(events, cancel))|, _ => ThinkingSlot)
                      + (if Answered(events, cancel, ending) then [ResponseSlot] else [])
      && |fin.writes| == |fin.slots|
      && |fin.log.entries| == base + |fin.slots|
      && fin.log.entries[..base] == ctx.entries
  {
    var base := |ctx.entries|;
    var evs := Handled(events, cancel);
    var t0 := Begin(ctx, folder, text, clock);
    BeginMeaning(ctx, folder, text, clock);
    var t := Fold(t0, evs, folder, clock);
    FoldMeaning(t0, evs, folder, clock);
    assert t.log.entries[..base] == ctx.entries by {
      assert t.log.entries[..base] == t.log.entries[..|t0.log.entries|][..base];
    }
    var fin := Final(ctx, folder, text, events, cancel, ending, clock);
    assert fin.log.entries[..base] == ctx.entries by {
      assert fin.log.entries[..base] == fin.log.entries[..|t.log.entries|][..base];
    }
  }

  /** The final turn's three messages hold the prompt, all the thinking text, and all the answer text. */
  lemma FinalContents(ctx: Context, folder: string, text: string, events: seq<Event>, cancel: Option<nat>,
                      ending: Ending, clock: nat -> Timestamp)
    ensures var fin := Final(ctx, folder, text, events, cancel, ending, clock);
      var evs := Handled(events, cancel);
      && fin.user == Begin(ctx, folder, text, clock).user
      && Holds(fin.user, UserSlot, text, evs)
      && Holds(fin.thinking, ThinkingSlot, text, evs)
      && Holds(fin.response, ResponseSlot, text, evs)
  {
    var evs := Handled(events, cancel);
    var t0 := Begin(ctx, folder, text, clock);
    BeginMeaning(ctx, folder, text, clock);
    var t := Fold(t0, evs, folder, clock);
    FoldMeaning(t0, evs, folder, clock);
    var fin := Final(ctx, folder, text, events, cancel, ending, clock);
    if Answered(events, cancel, ending) {
      assert Current(fin, UserSlot) == Current(t, UserSlot);
      assert Current(fin, ThinkingSlot) == Current(t, ThinkingSlot);
    }
  }

  /** The final turn's log has one new entry per slot, and the first is the user message. */
  lemma FinalShape(ctx: Context, folder: string, text: string, events: seq<Event>, cancel: Option<nat>,
                   ending: Ending, clock: nat -> Timestamp)
    ensures var fin := Final(ctx, folder, text, events, cancel, ending, clock);
      |fin.log.entries| == |ctx.entries| + |fin.slots| && |fin.slots| > 0 && fin.slots[0] == UserSlot
  {
    FinalCommits(ctx, folder, text, events, cancel, ending, clock);
  }

  lemma FinalMeaning(ctx: Context, folder: string, text: string, events: seq<Event>, cancel: Option<nat>,
                     ending: Ending, clock: nat -> Timestamp)
    ensures var fin := Final(ctx, folder, text, events, cancel, ending, clock);
      var evs := Handled(events, cancel);
      var base := |ctx.entries|;
      && fin.slots == [UserSlot] + seq(|Transitions(None, evs)|, _ => ThinkingSlot)
                      + (if Answered(events, cancel, ending) then [ResponseSlot] else [])
      && |fin.writes| == |fin.slots|
      && |fin.log.entries| == base + |fin.slots|
      && fin.log.entries[..base] == ctx.entries
      && fin.user == Begin(ctx, folder, text, clock).user
      && Holds(fin.user, UserSlot, text, evs)
      && Holds(fin.thinking, ThinkingSlot, text, evs)
      && Holds(fin.response, ResponseSlot, text, evs)
  {
    FinalCommits(ctx, folder, text, events, cancel, ending, clock);
    FinalContents(ctx, folder, text, events, cancel, ending, clock);
  }

  /**
   For the stripped prompt `text`: the user message is committed first; the
   thinking message is committed once per switch into content; the answer is
   committed once, last, unless the stream failed; every commit writes one
   file; earlier entries stay; the flag ends cleared.
   */
  lemma RespondCommits(ctx: Context, folder: string, text: string, events: seq<Event>, cancel: Option<nat>,
                       ending: Ending, clock: nat -> Timestamp)
    ensures var o := Respond(ctx, folder, text, events, cancel, ending, clock);
      var answered := Answered(events, cancel, ending);
      && !o.streaming
      && o.status == (if answered then Finished else Errored)
      && o.slots == [UserSlot] + seq(|Transitions(None, Handled(events, cancel))|, _ => ThinkingSlot)
                    + (if answered then [ResponseSlot] else [])
      && |o.writes| == |o.slots|
      && |o.context.entries| == |ctx.entries| + |o.slots|
      && o.context.entries[..|ctx.entries|] == ctx.entries
  {
    var fin := Final(ctx, folder, text, events, cancel, ending, clock);
    FinalCommits(ctx, folder, text, events, cancel, ending, clock);
    VisibleShape(fin, |ctx.entries|);
  }

  /**
   What each new entry holds afterwards: `text` as an enabled user message,
   the whole thinking text as a disabled assistant message at every place it
   was committed, and the whole answer as an enabled one; and the user
   message is the only message sent to the model.
   */
  lemma RespondContents(ctx: Context, folder: string, text: string, events: seq<Event>, cancel: Option<nat>,
                        ending: Ending, clock: nat -> Timestamp)
    ensures var o := Respond(ctx, folder, text, events, cancel, ending, clock);
      var base := |ctx.entries|;
      && |o.slots| > 0
      && |o.context.entries| == base + |o.slots|
      && o.sent == [o.context.entries[base].message]
      && forall k :: 0 <= k < |o.slots| ==>
        Holds(o.context.entries[base + k].message, o.slots[k], text, Handled(events, cancel))
  {
    var fin := Final(ctx, folder, text, events, cancel, ending, clock);
    FinalShape(ctx, folder, text, events, cancel, ending, clock);
    FinalContents(ctx, folder, text, events, cancel, ending, clock);
    OutcomeContents(fin, |ctx.entries|, text, Handled(events, cancel),
                    Respond(ctx, folder, text, events, cancel, ending, clock));
  }

  lemma OutcomeContents(fin: Turn, base: nat, text: string, evs: seq<Event>, o: Outcome)
    requires |fin.log.entries| == base + |fin.slots| && |fin.slots| > 0 && fin.slots[0] == UserSlot
    requires Holds(fin.user, UserSlot, text, evs)
    requires Holds(fin.thinking, ThinkingSlot, text, evs)
    requires Holds(fin.response, ResponseSlot, text, evs)
    requires o.context == Visible(fin, base) && o.slots == fin.slots && o.sent == [fin.user]
    ensures |o.slots| > 0 && |o.context.entries| == base + |o.slots|
    ensures o.sent == [o.context.entries[base].message]
    ensures forall k :: 0 <= k < |o.slots| ==> Holds(o.context.entries[base + k].message, o.slots[k], text, evs)
  {
    VisibleShape(fin, base);
    forall k | 0 <= k < |o.slots| ensures Holds(o.context.entries[base + k].message, o.slots[k], text, evs) {
      CurrentHolds(fin, fin.slots[k], text, evs);
    }
    assert o.context.entries[base + 0].message == fin.user;
  }

  lemma CurrentHolds(t: Turn, s: Slot, text: string, evs: seq<Event>)
    requires Holds(t.user, UserSlot, text, evs)
    requires Holds(t.thinking, ThinkingSlot, text, evs)
    requires Holds(t.response, ResponseSlot, text, evs)
    ensures Holds(Current(t, s), s, text, evs)
  {
  }

  /** A prompt with visible text: the worker commits and writes as `RespondCommits` describes, for the stripped prompt. */
  lemma WorkerCommits(ctx: Context, folder: string, prompt: string, events: seq<Event>, cancel: Option<nat>,
                      ending: Ending, clock: nat -> Timestamp)
    requires !AllSpace(prompt)
    ensures var o := Worker(ctx, folder, prompt, events, cancel, ending, clock);
      var answered := Answered(events, cancel, ending);
      && !o.streaming
      && o.status == (if answered then Finished else Errored)
      && o.slots == [UserSlot] + seq(|Transitions(None, Handled(events, cancel))|, _ => ThinkingSlot)
                    + (if answered then [ResponseSlot] else [])
      && |o.writes| == |o.slots|
      && |o.context.entries| == |ctx.entries| + |o.slots|
      && o.context.entries[..|ctx.entries|] == ctx.entries
  {
    RespondCommits(ctx, folder, Strip(prompt), events, cancel, ending, clock);
  }

  /** A prompt with visible text: the new entries hold what `RespondContents` describes, for the stripped prompt. */
  lemma WorkerContents(ctx: Context, folder: string, prompt: string, events: seq<Event>, cancel: Option<nat>,
                       ending: Ending, clock: nat -> Timestamp)
    requires !AllSpace(prompt)
    ensures var o := Worker(ctx, folder, prompt, events, cancel, ending, clock);
      var base := |ctx.entries|;
      && |o.slots| > 0
      && |o.context.entries| == base + |o.slots|
      && o.sent == [o.context.entries[base].message]
      && forall k :: 0 <= k < |o.slots| ==>
        Holds(o.context.entries[base + k].message, o.slots[k], Strip(prompt), Handled(events, cancel))
  {
    RespondContents(ctx, folder, Strip(prompt), events, cancel, ending, clock);
  }

  /**
   Once the loop sees the flag cleared it handles nothing more: the outcome
   is the one a stream that simply ended there would give, answer included.
   */
  lemma WorkerCancel(ctx: Context, folder: string, prompt: string, events: seq<Event>, k: nat,
                     ending: Ending, clock: nat -> Timestamp)
    requires k < |events|
    ensures Worker(ctx, folder, prompt, events, Some(k), ending, clock)
         == Worker(ctx, folder, prompt, events[..k], None, Exhausted, clock)
  {
    assert events[..k][..k] == events[..k];
  }

  /**
   An interrupt issued while fragment `received` is still to come stops the
   worker exactly as a stream that ran out after the fragments before the
   stop: after `received` of them, or fewer when an earlier interrupt came
   first.
   */
  lemma InterruptStopsWorker(ctx: Context, folder: string, prompt: string, events: seq<Event>, received: nat,
                             cancel: Option<nat>, ending: Ending, clock: nat -> Timestamp)
    requires received < |events|
    ensures var stop := InterruptStreaming(received, cancel);
      Worker(ctx, folder, prompt, events, stop, ending, clock)
      == Worker(ctx, folder, prompt, events[..stop.value], None, Exhausted, clock)
    ensures cancel.None? ==>
      Worker(ctx, folder, prompt, events, InterruptStreaming(received, None), ending, clock)
      == Worker(ctx, folder, prompt, events[..received], None, Exhausted, clock)
  {
    WorkerCancel(ctx, folder, prompt, events, InterruptStreaming(received, cancel).value, ending, clock);
  }

  lemma ThinkThenAnswerEvents(thought: string, answer: string)
    ensures var evs := [Part(Thinking, thought), Part(Content, answer)];
      && Handled(evs, None) == evs && |Transitions(None, evs)| == 1
      && ThinkingText(evs) == thought && ContentText(evs) == answer
  {
    var evs := [Part(Thinking, thought), Part(Content, answer)];
    assert Transitions(None, evs) == {1} by {
      assert evs[..1] == [Part(Thinking, thought)];
      assert !EntersContent(None, evs, 0);
      assert EntersContent(None, evs, 1);
    }
    assert evs[..1][..0] == [];
    assert ThinkingText(evs[..1]) == ThinkingText([]) + thought;
    assert ContentText(evs[..1]) == ContentText([]) + "";
  }

  lemma AnswerOnlyEvents(first: string, second: string)
    ensures var evs := [Part(Content, first), Part(Content, second)];
      && Handled(evs, None) == evs && |Transitions(None, evs)| == 1
      && ThinkingText(evs) == "" && ContentText(evs) == first + second
  {
    var evs := [Part(Content, first), Part(Content, second)];
    assert Transitions(None, evs) == {0} by {
      assert evs[..1] == [Part(Content, first)];
      assert EntersContent(None, evs, 0);
      assert !EntersContent(None, evs, 1);
    }
    assert evs[..1][..0] == [];
    assert ThinkingText(evs[..1]) == ThinkingText([]) + "";
    assert ContentText(evs[..1]) == ContentText([]) + first;
  }

  /**
   A thinking fragment and then an answer fragment give three new entries:
   the user prompt, the disabled thinking text committed at the switch, and
   the answer.
   */
  lemma ScenarioThinkingThenContent(ctx: Context, folder: string, prompt: string, thought: string, answer: string,
                                    clock: nat -> Timestamp)
    requires |prompt| > 0 && !IsSpace(prompt[0]) && !IsSpace(prompt[|prompt| - 1])
    ensures var o := Worker(ctx, folder, prompt, [Part(Thinking, thought), Part(Content, answer)], None, Exhausted, clock);
      var b := |ctx.entries|;
      && o.slots == [UserSlot, ThinkingSlot, ResponseSlot]
      && |o.context.entries| == b + 3
      && o.context.entries[b].message.content == prompt
      && o.context.entries[b + 1].message.content == thought && !o.context.entries[b + 1].message.enabled
      && o.context.entries[b + 2].message.content == answer && o.context.entries[b + 2].message.enabled
  {
    StripTrimmed(prompt);
    RespondThinkingThenContent(ctx, folder, prompt, thought, answer, clock);
  }

  lemma RespondThinkingThenContent(ctx: Context, folder: string, text: string, thought: string, answer: string,
                                   clock: nat -> Timestamp)
    ensures var o := Respond(ctx, folder, text, [Part(Thinking, thought), Part(Content, answer)], None, Exhausted, clock);
      var b := |ctx.entries|;
      && o.slots == [UserSlot, ThinkingSlot, ResponseSlot]
      && |o.context.entries| == b + 3
      && o.context.entries[b].message.content == text
      && o.context.entries[b + 1].message.content == thought && !o.context.entries[b + 1].message.enabled
      && o.context.entries[b + 2].message.content == answer && o.context.entries[b + 2].message.enabled
  {
    ThinkThenAnswerEvents(thought, answer);
    RespondOneSwitch(ctx, folder, text, [Part(Thinking, thought), Part(Content, answer)], clock);
  }

  /**
   Two answer fragments and no thinking still commit an empty, disabled
   thinking message: the first answer fragment is a switch into content.
   */
  lemma ScenarioContentOnly(ctx: Context, folder: string, prompt: string, first: string, second: string,
                            clock: nat -> Timestamp)
    requires |prompt| > 0 && !IsSpace(prompt[0]) && !IsSpace(prompt[|prompt| - 1])
    ensures var o := Worker(ctx, folder, prompt, [Part(Content, first), Part(Content, second)], None, Exhausted, clock);
      var b := |ctx.entries|;
      && o.slots == [UserSlot, ThinkingSlot, ResponseSlot]
      && |o.context.entries| == b + 3
      && o.context.entries[b + 1].message.content == "" && !o.context.entries[b + 1].message.enabled
      && o.context.entries[b + 2].message.content == first + second
  {
    StripTrimmed(prompt);
    RespondContentOnly(ctx, folder, prompt, first, second, clock);
  }

  lemma RespondContentOnly(ctx: Context, folder: string, text: string, first: string, second: string,
                           clock: nat -> Timestamp)
    ensures var o := Respond(ctx, folder, text, [Part(Content, first), Part(Content, second)], None, Exhausted, clock);
      var b := |ctx.entries|;
      && o.slots == [UserSlot, ThinkingSlot, ResponseSlot]
      && |o.context.entries| == b + 3
      && o.context.entries[b + 1].message.content == "" && !o.context.entries[b + 1].message.enabled
      && o.context.entries[b + 2].message.content == first + second
  {
    AnswerOnlyEvents(first, second);
    RespondOneSwitch(ctx, folder, text, [Part(Content, first), Part(Content, second)], clock);
  }

  /** A stream that runs out after exactly one switch into content gives the user, thinking and answer entries. */
  lemma RespondOneSwitch(ctx: Context, folder: string, text: string, events: seq<Event>, clock: nat -> Timestamp)
    requires |Transitions(None, events)| == 1
    ensures var o := Respond(ctx, folder, text, events, None, Exhausted, clock);
      var b := |ctx.entries|;
      && o.slots == [UserSlot, ThinkingSlot, ResponseSlot]
      && |o.context.entries| == b + 3
      && Holds(o.context.entries[b].message, UserSlot, text, events)
      && Holds(o.context.entries[b + 1].message, ThinkingSlot, text, events)
      && Holds(o.context.entries[b + 2].message, ResponseSlot, text, events)
  {
    assert Handled(events, None) == events;
    assert seq(1, _ => ThinkingSlot) == [ThinkingSlot];
    RespondCommits(ctx, folder, text, events, None, Exhausted, clock);
    RespondContents(ctx, folder, text, events, None, Exhausted, clock);
    ThreeEntries(Respond(ctx, folder, text, events, None, Exhausted, clock), |ctx.entries|, text, events);
  }

  lemma ThreeEntries(o: Outcome, b: nat, text: string, evs: seq<Event>)
    requires o.slots == [UserSlot, ThinkingSlot, ResponseSlot] && |o.context.entries| == b + 3
    requires forall k :: 0 <= k < |o.slots| ==> Holds(o.context.entries[b + k].message, o.slots[k], text, evs)
    ensures Holds(o.context.entries[b].message, UserSlot, text, evs)
    ensures Holds(o.context.entries[b + 1].message, ThinkingSlot, text, evs)
    ensures Holds(o.context.entries[b + 2].message, ResponseSlot, text, evs)
  {
    assert Holds(o.context.entries[b + 0].message, o.slots[0], text, evs);
    assert Holds(o.context.entries[b + 1].message, o.slots[1], text, evs);
    assert Holds(o.context.entries[b + 2].message, o.slots[2], text, evs);
  }
}
