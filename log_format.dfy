/** `LogstashFormatter.format` (lines 60-71): the HTML text that the Telegram
    handler posts for one log record. A record's message is either plain text
    or a dictionary; dictionary keys and values appear as their string forms,
    in the dictionary's order. The timestamp, which the source reads from the
    clock, is a parameter. */
module LogFormat {

  /** The message of a log record. */
  datatype LogMessage =
    | Plain(text: string)
    | Structured(entries: seq<(string, string)>)

  /** The italic timestamp every message starts with. */
  function Header(t: string): (h: string)
    ensures |h| == |t| + 7
  {
    "<i>" + t + "</i>"
  }

  /** A preformatted block holding `body`. */
  function Pre(body: string): (p: string)
    ensures |p| == |body| + 12
  {
    "<pre>\n" + body + "</pre>"
  }

  /** One dictionary entry: its key, then its value in bold. */
  function Entry(key: string, value: string): (e: string)
    ensures |e| == |key| + |value| + 19
  {
    key + ": <strong>" + value + "</strong>"
  }

  /** The blocks of a dictionary, one per entry, in order. */
  function Blocks(entries: seq<(string, string)>): string
  {
    if entries == [] then ""
    else
      var last := entries[|entries| - 1];
      Blocks(entries[..|entries| - 1]) + Pre(Entry(last.0, last.1))
  }

  /** The text of a formatted record. */
  function Rendered(msg: LogMessage, t: string): (m: string)
    ensures |m| >= |Header(t)| && m[..|Header(t)|] == Header(t)
  {
    var body := match msg
      case Plain(text) => Pre(text)
      case Structured(entries) => Blocks(entries);
    assert (Header(t) + body)[..|Header(t)|] == Header(t);
    Header(t) + body
  }

  /** Lines 60-71: a dictionary is rendered entry by entry after the
      timestamp; any other message is rendered as one block. */
  method Format(msg: LogMessage, t: string) returns (message: string)
    ensures message == Rendered(msg, t)
  {
    message := Header(t);
    match msg {
      case Structured(entries) =>
        for i := 0 to |entries|
          invariant message == Header(t) + Blocks(entries[..i])
        {
          assert entries[..i + 1][..i] == entries[..i];
          var (key, value) := entries[i];
          message := message + Pre(Entry(key, value));
        }
        assert entries[..|entries|] == entries;
      case Plain(text) =>
        message := message + Pre(text);
    }
  }

  /** Rendering a dictionary distributes over splitting its entries. */
  lemma {:induction false} BlocksAppend(a: seq<(string, string)>, b: seq<(string, string)>)
    ensures Blocks(a + b) == Blocks(a) + Blocks(b)
    decreases |b|
  {
    if b == [] {
      assert a + b == a;
    } else {
      assert (a + b)[..|a + b| - 1] == a + b[..|b| - 1];
      BlocksAppend(a, b[..|b| - 1]);
    }
  }

  /** A dictionary with one entry is rendered as the plain message made of
      that entry. */
  lemma SingleEntryIsPlainEntry(key: string, value: string, t: string)
    ensures Rendered(Structured([(key, value)]), t) == Rendered(Plain(Entry(key, value)), t)
  {
    assert [(key, value)][..0] == [];
    assert Blocks([(key, value)]) == "" + Pre(Entry(key, value));
  }

  /** The text of a plain message can be read back from its rendering: it
      lies between the timestamp with the block's opening and the block's
      closing. */
  lemma PlainTextRecoverable(text: string, t: string)
    ensures var m := Rendered(Plain(text), t);
      m[|Header(t)| + 6 .. |m| - 6] == text
  {
    var m := Rendered(Plain(text), t);
    assert m == Header(t) + "<pre>\n" + text + "</pre>";
  }

  /** Each entry of a dictionary can be read back from the rendering at the
      position the earlier entries determine. */
  lemma EntryRecoverable(entries: seq<(string, string)>, i: nat, t: string)
    requires i < |entries|
    ensures var m := Rendered(Structured(entries), t);
      var at := |Header(t)| + |Blocks(entries[..i])|;
      at + |Pre(Entry(entries[i].0, entries[i].1))| <= |m|
      && m[at .. at + |Pre(Entry(entries[i].0, entries[i].1))|] == Pre(Entry(entries[i].0, entries[i].1))
  {
    var block := Pre(Entry(entries[i].0, entries[i].1));
    assert entries == entries[..i] + [entries[i]] + entries[i + 1..];
    BlocksAppend(entries[..i] + [entries[i]], entries[i + 1..]);
    BlocksAppend(entries[..i], [entries[i]]);
    assert [entries[i]][..0] == [];
    assert Blocks([entries[i]]) == block;
    var m := Rendered(Structured(entries), t);
    assert m == Header(t) + Blocks(entries[..i]) + block + Blocks(entries[i + 1..]);
  }
}
