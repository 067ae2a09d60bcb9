/**
 One conversational turn: a role, its text, attached file paths, whether it
 is sent in later requests, and the file it was saved to or loaded from.
 */
module Messages {
  import opened Wrappers

  /** The JSON-like values held by the dictionaries a message is projected to. */
  datatype Value = Str(text: string) | Bool(flag: bool) | Null

  /** A Python `dict` with string keys. */
  type Record = map<string, Value>

  datatype Message = Message(
    role: string,
    content: string,
    attachments: seq<string>,
    enabled: bool,
    file: Option<string>)

  /**
   The constructor with its Python defaults: no attachment list (or an empty
   one) gives a fresh empty list, the message is enabled and has no file.
   */
  function New(role: string, content: string, attachments: Option<seq<string>> := None,
               enabled: bool := true, file: Option<string> := None): (m: Message)
    ensures m.role == role && m.content == content && m.enabled == enabled && m.file == file
    ensures attachments.None? ==> m.attachments == []
    ensures attachments.Some? ==> m.attachments == attachments.value
  {
    Message(role, content, if attachments.Some? then attachments.value else [], enabled, file)
  }

  /** Every message is the constructor applied to its own fields. */
  lemma NewCoversAll(m: Message)
    ensures New(m.role, m.content, Some(m.attachments), m.enabled, m.file) == m
  {
  }

  /** A message built with the defaults is written as enabled with a null file. */
  lemma NewRecord(role: string, content: string)
    ensures Serialize(New(role, content))
      == map["role" := Str(role), "content" := Str(content), "enabled" := Bool(true), "file" := Null]
    ensures ToJson(New(role, content)) == map["role" := Str(role), "content" := Str(content), "attachments" := Str("")]
  {
  }

  /** `attach`: the path goes to the end of the list. */
  function Attach(m: Message, path: string): (r: Message)
    ensures |r.attachments| == |m.attachments| + 1
    ensures r.attachments[..|m.attachments|] == m.attachments
    ensures r.attachments[|m.attachments|] == path
    ensures r == m.(attachments := r.attachments)
  {
    m.(attachments := m.attachments + [path])
  }

  /** The position of the first occurrence of `x`, as `list.index` finds it. */
  function IndexOf(s: seq<string>, x: string): (i: nat)
    requires x in s
    ensures i < |s| && s[i] == x && x !in s[..i]
  {
    if s[0] == x then 0 else 1 + IndexOf(s[1..], x)
  }

  /** `list.remove(x)` when `x` is present; nothing otherwise. */
  function RemoveFirst(s: seq<string>, x: string): (r: seq<string>)
    ensures x !in s ==> r == s
    ensures x in s ==> r == s[..IndexOf(s, x)] + s[IndexOf(s, x) + 1..]
    ensures multiset(r) == multiset(s) - multiset{x}
  {
    if |s| == 0 then []
    else if s[0] == x then
      assert s[..0] + s[1..] == s[1..];
      assert s == [x] + s[1..];
      s[1..]
    else
      var rest := RemoveFirst(s[1..], x);
      RemoveFirstStep(s, x, rest);
      [s[0]] + rest
  }

  lemma RemoveFirstStep(s: seq<string>, x: string, rest: seq<string>)
    requires |s| > 0 && s[0] != x
    requires x !in s[1..] ==> rest == s[1..]
    requires x in s[1..] ==> rest == s[1..][..IndexOf(s[1..], x)] + s[1..][IndexOf(s[1..], x) + 1..]
    requires multiset(rest) == multiset(s[1..]) - multiset{x}
    ensures x !in s ==> [s[0]] + rest == s
    ensures x in s ==> [s[0]] + rest == s[..IndexOf(s, x)] + s[IndexOf(s, x) + 1..]
    ensures multiset([s[0]] + rest) == multiset(s) - multiset{x}
  {
    assert s == [s[0]] + s[1..];
    if x in s {
      RemoveFirstShift(s, x, rest);
    }
    RemoveFirstCount(s, x, rest);
  }

  lemma RemoveFirstShift(s: seq<string>, x: string, rest: seq<string>)
    requires |s| > 0 && s[0] != x && x in s
    requires rest == s[1..][..IndexOf(s[1..], x)] + s[1..][IndexOf(s[1..], x) + 1..]
    ensures [s[0]] + rest == s[..IndexOf(s, x)] + s[IndexOf(s, x) + 1..]
  {
    var j := IndexOf(s[1..], x);
    assert IndexOf(s, x) == j + 1;
    assert s[..j + 1] == [s[0]] + s[1..][..j];
    assert s[j + 2..] == s[1..][j + 1..];
  }

  lemma RemoveFirstCount(s: seq<string>, x: string, rest: seq<string>)
    requires |s| > 0 && s[0] != x
    requires multiset(rest) == multiset(s[1..]) - multiset{x}
    ensures multiset([s[0]] + rest) == multiset(s) - multiset{x}
  {
    assert s == [s[0]] + s[1..];
    assert multiset(s) == multiset{s[0]} + multiset(s[1..]);
  }

  /** `detach`: drops the first occurrence of the path, if there is one. */
  function Detach(m: Message, path: string): (r: Message)
    ensures path !in m.attachments ==> r == m
    ensures path in m.attachments ==>
      var i := IndexOf(m.attachments, path);
      r == m.(attachments := m.attachments[..i] + m.attachments[i + 1..])
  {
    if path in m.attachments then m.(attachments := RemoveFirst(m.attachments, path)) else m
  }

  /** Attaching a new path and detaching it again gives back the same message. */
  lemma AttachThenDetach(m: Message, path: string)
    requires path !in m.attachments
    ensures Detach(Attach(m, path), path) == m
  {
    var s := m.attachments + [path];
    assert IndexOf(s, path) == |m.attachments|;
    assert s[..|m.attachments|] == m.attachments;
  }

  function FileValue(file: Option<string>): Value {
    if file.Some? then Str(file.value) else Null
  }

  /** `serialize`: the record written to a message file. */
  function Serialize(m: Message): (r: Record)
    ensures r.Keys == {"role", "content", "enabled", "file"}
    ensures "attachments" !in r
    ensures r["role"] == Str(m.role) && r["content"] == Str(m.content)
    ensures r["enabled"] == Bool(m.enabled) && r["file"] == FileValue(m.file)
  {
    map["role" := Str(m.role), "content" := Str(m.content), "enabled" := Bool(m.enabled), "file" := FileValue(m.file)]
  }

  /** Two messages have the same record exactly when they agree on everything but the attachments. */
  lemma SerializeDeterminesFields(m: Message, n: Message)
    ensures Serialize(m) == Serialize(n) <==>
      m.role == n.role && m.content == n.content && m.enabled == n.enabled && m.file == n.file
  {
    if Serialize(m) == Serialize(n) {
      assert Serialize(m)["role"] == Serialize(n)["role"];
      assert Serialize(m)["content"] == Serialize(n)["content"];
      assert Serialize(m)["enabled"] == Serialize(n)["enabled"];
      assert Serialize(m)["file"] == Serialize(n)["file"];
    }
  }

  /** `to_json`: the request form, with a constant empty attachments field. */
  function ToJson(m: Message): (r: Record)
    ensures r.Keys == {"role", "content", "attachments"}
    ensures "enabled" !in r && "file" !in r
    ensures r["role"] == Str(m.role) && r["content"] == Str(m.content) && r["attachments"] == Str("")
  {
    map["role" := Str(m.role), "content" := Str(m.content), "attachments" := Str("")]
  }

  /** The request form depends on the role and the content alone. */
  lemma ToJsonDependsOnRoleAndContent(m: Message, n: Message)
    ensures ToJson(m) == ToJson(n) <==> m.role == n.role && m.content == n.content
  {
    if ToJson(m) == ToJson(n) {
      assert ToJson(m)["role"] == ToJson(n)["role"];
      assert ToJson(m)["content"] == ToJson(n)["content"];
    }
  }

  /** The row label of a message: its first 40 characters, with "..." when there is more. */
  function Preview(content: string): (r: string)
    ensures |content| <= 40 ==> r == content
    ensures |content| > 40 ==> |r| == 43 && r[..40] == content[..40] && r[40..] == "..."
  {
    (if |content| <= 40 then content else content[..40]) + (if |content| > 40 then "..." else "")
  }

  /*
   The icon literals of `message.py` are not the emoji they were meant to be:
   each is the UTF-8 encoding of the emoji read back as Windows-1254 text, so
   the label shows these code points. The gear's last byte, 0x8F, has no
   character in that code page and is missing.
   */

  /** "Bust in silhouette" (U+1F464) as it stands in the file. */
  const UserIcon: string := "\U{011F}\U{0178}\U{2018}\U{00A4}"
  /** "Robot face" (U+1F916) as it stands in the file. */
  const AssistantIcon: string := "\U{011F}\U{0178}\U{00A4}\U{2013}"
  /** "Gear" with the emoji selector (U+2699 U+FE0F) as it stands in the file. */
  const SystemIcon: string := "\U{00E2}\U{0161}\U{2122}\U{00EF}\U{00B8}"

  /** The icon shown for a role; anything other than "user" or "assistant" shows as system. */
  function RoleIcon(role: string): (r: string)
    ensures r == UserIcon <==> role == "user"
    ensures r == AssistantIcon <==> role == "assistant"
    ensures r == SystemIcon <==> role != "user" && role != "assistant"
  {
    match role
    case "user" => UserIcon
    case "assistant" => AssistantIcon
    case _ => SystemIcon
  }
}
