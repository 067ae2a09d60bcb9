/** A conversation: timestamped messages in the order they were added. */
module Contexts {
  import opened Messages

  /** Times are carried as opaque text: the model never compares or parses them. */
  type Timestamp = string

  datatype Entry = Entry(ts: Timestamp, message: Message)

  datatype Context = Context(entries: seq<Entry>)

  /** A new context holds nothing. */
  function Empty(): (c: Context)
    ensures |c.entries| == 0
  {
    Context([])
  }

  /** `add_message`: one more pair at the end, earlier pairs untouched. */
  function AddMessage(c: Context, ts: Timestamp, m: Message): (r: Context)
    ensures |r.entries| == |c.entries| + 1
    ensures r.entries[..|c.entries|] == c.entries
    ensures r.entries[|c.entries|] == Entry(ts, m)
  {
    Context(c.entries + [Entry(ts, m)])
  }

  /** The records of the enabled messages among `es`, in order. */
  function EnabledRecords(es: seq<Entry>): (r: seq<Record>)
    ensures |r| <= |es|
    ensures forall k :: 0 <= k < |r| ==> "enabled" in r[k] && r[k]["enabled"] == Bool(true)
  {
    if |es| == 0 then []
    else
      var init := EnabledRecords(es[..|es| - 1]);
      var last := es[|es| - 1].message;
      if last.enabled then init + [Serialize(last)] else init
  }

  /** A message contributes its record exactly when it is enabled, and nothing else appears. */
  lemma {:induction false} EnabledRecordsMembership(es: seq<Entry>)
    ensures forall i :: 0 <= i < |es| && es[i].message.enabled ==> Serialize(es[i].message) in EnabledRecords(es)
    ensures forall rec :: rec in EnabledRecords(es) ==>
      exists i :: 0 <= i < |es| && es[i].message.enabled && Serialize(es[i].message) == rec
    decreases |es|
  {
    if |es| > 0 {
      var init := es[..|es| - 1];
      EnabledRecordsMembership(init);
      assert forall i :: 0 <= i < |init| ==> init[i] == es[i];
    }
  }

  /** `get_messages`: the records of the enabled messages, in conversation order. */
  function GetMessages(c: Context): (r: seq<Record>)
    ensures |r| <= |c.entries|
    ensures forall k :: 0 <= k < |r| ==> "enabled" in r[k] && r[k]["enabled"] == Bool(true)
  {
    EnabledRecords(c.entries)
  }

  /** Filtering a concatenation filters each part and keeps them in order. */
  lemma {:induction false} EnabledRecordsAppend(a: seq<Entry>, b: seq<Entry>)
    ensures EnabledRecords(a + b) == EnabledRecords(a) + EnabledRecords(b)
    decreases |b|
  {
    if |b| == 0 {
      assert a + b == a;
    } else {
      var b' := b[..|b| - 1];
      assert (a + b)[..|a + b| - 1] == a + b';
      EnabledRecordsAppend(a, b');
    }
  }

  /** Adding a message extends the output by its record exactly when it is enabled. */
  lemma GetMessagesAfterAdd(c: Context, ts: Timestamp, m: Message)
    ensures GetMessages(AddMessage(c, ts, m)) == GetMessages(c) + (if m.enabled then [Serialize(m)] else [])
  {
    var r := AddMessage(c, ts, m);
    assert r.entries[..|r.entries| - 1] == c.entries;
  }

  /** The output has one record per stored message exactly when every message is enabled. */
  lemma {:induction false} GetMessagesAllEnabled(c: Context)
    ensures |GetMessages(c)| == |c.entries| <==> forall i :: 0 <= i < |c.entries| ==> c.entries[i].message.enabled
    decreases |c.entries|
  {
    var es := c.entries;
    if |es| > 0 {
      var init := es[..|es| - 1];
      var last := es[|es| - 1].message;
      GetMessagesAllEnabled(Context(init));
      var n := |EnabledRecords(init)|;
      assert |EnabledRecords(es)| == n + (if last.enabled then 1 else 0);
      if forall i :: 0 <= i < |es| ==> es[i].message.enabled {
        assert forall i :: 0 <= i < |init| ==> init[i].message.enabled by {
          forall i | 0 <= i < |init| ensures init[i].message.enabled { assert init[i] == es[i]; }
        }
      }
      if |EnabledRecords(es)| == |es| {
        assert last.enabled && n == |init|;
        forall i | 0 <= i < |es| ensures es[i].message.enabled {
          if i < |init| { assert init[i] == es[i]; }
        }
      }
    }
  }
}
