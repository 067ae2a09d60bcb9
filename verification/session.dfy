/**
 The session's naming schemes and the step that commits a message: append
 it to the live context, point it at its file, and write its record there.
 */
module Session {
  import opened Wrappers
  import opened Strings
  import opened Messages
  import opened Contexts
  import History

  /**
   The session folder for a start time printed as "%Y-%m-%d %H:%M:%S":
   "session_" and the time with spaces turned into '_' and colons into '-'.
   */
  function SessionFolderName(startTime: string): (r: string)
    ensures |r| == 8 + |startTime| && r[..8] == "session_"
    ensures forall i :: 0 <= i < |startTime| ==>
      r[8 + i] == (if startTime[i] == ' ' then '_' else if startTime[i] == ':' then '-' else startTime[i])
    ensures ' ' !in r && ':' !in r
  {
    var r := "session_" + Replace(Replace(startTime, ' ', '_'), ':', '-');
    assert forall i :: 0 <= i < 8 ==> r[i] == "session_"[i];
    r
  }

  /** The name of the file a message committed at `ts` is written to. */
  function MessageFileName(ts: Timestamp, role: string): string {
    ts + "_" + role + ".json"
  }

  /**
   A name written by the session passes the loader's ".json" filter, and the
   loader's timestamp key gives back `ts` whenever `ts` holds no '_'.
   */
  lemma MessageFileNameRoundTrip(ts: Timestamp, role: string)
    ensures History.IsJson(MessageFileName(ts, role))
    ensures '_' !in ts ==> History.TimestampKey(MessageFileName(ts, role)) == ts
  {
    var name := MessageFileName(ts, role);
    assert name[|name| - 5..] == ".json";
    if '_' !in ts {
      var key := History.TimestampKey(name);
      assert name[|ts|] == '_';
      assert name[..|ts|] == ts;
      assert |key| == |ts|;
    }
  }

  /** `os.path.join(folder, name)` on the folder's text. */
  function FilePath(folder: string, name: string): string {
    folder + "/" + name
  }

  /** What was written: the path, and the message whose record, `Serialize(message)`, went into the file. */
  datatype Written = Written(path: string, message: Message)

  datatype Added = Added(context: Context, message: Message, written: Written)

  /**
   `add_message_to_context`: the message is appended at `ts`, its file is set
   to the new path whatever it was before (the stored entry is the same
   object, so it shows the new path too), and its record is written there.
   */
  function AddMessageToContext(ctx: Context, folder: string, ts: Timestamp, m: Message): (r: Added)
    ensures var path := FilePath(folder, MessageFileName(ts, m.role));
      && r.message == m.(file := Some(path))
      && r.written == Written(path, r.message)
    ensures |r.context.entries| == |ctx.entries| + 1
    ensures r.context.entries[..|ctx.entries|] == ctx.entries
    ensures r.context.entries[|ctx.entries|] == Entry(ts, r.message)
  {
    var stored := m.(file := Some(FilePath(folder, MessageFileName(ts, m.role))));
    Added(AddMessage(ctx, ts, stored), stored, Written(stored.file.value, stored))
  }

  /**
   Adding the same message twice gives two new entries with its content.
   Here the first entry keeps the path of the first write. In the program
   both entries are the same object, so both then show the second path, and
   `get_messages` serializes that path for both. The program only re-adds a
   message in the streaming worker, whose shared objects `Streaming.Visible`
   models.
   */
  lemma AddTwice(ctx: Context, folder: string, ts1: Timestamp, ts2: Timestamp, m: Message)
    ensures var a := AddMessageToContext(ctx, folder, ts1, m);
      var b := AddMessageToContext(a.context, folder, ts2, a.message);
      && |b.context.entries| == |ctx.entries| + 2
      && b.context.entries[|ctx.entries|].message.content == m.content
      && b.context.entries[|ctx.entries| + 1].message.content == m.content
      && b.context.entries[..|ctx.entries|] == ctx.entries
  {
    var a := AddMessageToContext(ctx, folder, ts1, m);
    var b := AddMessageToContext(a.context, folder, ts2, a.message);
    assert b.context.entries[|ctx.entries|] == a.context.entries[|ctx.entries|];
    assert b.context.entries[..|ctx.entries|] == a.context.entries[..|a.context.entries|][..|ctx.entries|];
  }
}
