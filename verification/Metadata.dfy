/** The metadata line of a metrics file: src/rotation.c prints the server's answer to CONFIG GET into it. */
module Metadata {
  import opened Wrappers
  import opened CText
  import opened Json
  import opened Buffers
  import opened Collector

  // ----- replies of the server --------------------------------------------------------------------------

  /** The characters "%.17g" prints, infinities and NaN included. */
  predicate IsDoubleText(s: string) {
    forall c :: c in s ==> c in "+-.0123456789aefin"
  }

  type DoubleText = s: string | IsDoubleText(s)

  datatype Reply =
    | StringReply(text: string)
    /** An error, a verbatim string or a big number. */
    | TextReply(text: string)
    | IntegerReply(n: int)
    | DoubleReply(printed: DoubleText)
    | BoolReply(value: bool)
    | MapReply(entries: seq<Entry>)
    /** An array or a set. */
    | ArrayReply(elements: seq<Reply>)
    /** Null, and every type the writer does not know. */
    | NullReply

  datatype Entry = Entry(key: string, value: Reply)

  /** Even in number, with a string at every even place. */
  predicate IsPairList(elements: seq<Reply>) {
    |elements| % 2 == 0 && forall i :: 0 <= i < |elements| && i % 2 == 0 ==> elements[i].StringReply?
  }

  // ----- the JSON of a reply ----------------------------------------------------------------------------

  /** json_write_reply() */
  function ReplyJson(reply: Reply): Json
    decreases reply, 0
  {
    match reply
    case StringReply(text) => Str(text)
    case TextReply(text) => Str(text)
    case IntegerReply(n) => Num(IntText(n))
    case DoubleReply(printed) => Num(printed)
    case BoolReply(value) => Bool(value)
    case MapReply(entries) => Obj(EntryMembers(entries))
    case ArrayReply(elements) =>
      if IsPairList(elements) then Obj(PairMembers(elements)) else Arr(ElementItems(elements))
    case NullReply => Null
  }

  function EntryMembers(entries: seq<Entry>): seq<Member>
    decreases entries, 1
  {
    if entries == [] then []
    else [Member(entries[0].key, ReplyJson(entries[0].value))] + EntryMembers(entries[1..])
  }

  function PairMembers(elements: seq<Reply>): seq<Member>
    requires IsPairList(elements)
    decreases elements, 1
  {
    if elements == [] then []
    else [Member(elements[0].text, ReplyJson(elements[1]))] + PairMembers(elements[2..])
  }

  function ElementItems(elements: seq<Reply>): seq<Json>
    decreases elements, 1
  {
    if elements == [] then [] else [ReplyJson(elements[0])] + ElementItems(elements[1..])
  }

  const METADATA_VERSION := 1
  const FORMAT_SNAPSHOT := 1
  const FORMAT_DELTA := 2

  /** What write_metrics_metadata() prints; `config` is missing when the call fails. */
  function MetadataJson(deltaMode: bool, createdMs: int, config: Option<Reply>): Json {
    Obj([Member("format_version", Num(IntText(if deltaMode then FORMAT_DELTA else FORMAT_SNAPSHOT)))] +
        AfterVersion(deltaMode, createdMs, config))
  }

  function AfterVersion(deltaMode: bool, createdMs: int, config: Option<Reply>): seq<Member> {
    [Member("schema_version", Num(IntText(METADATA_VERSION)))] +
    ([Member("delta_mode", Bool(deltaMode))] + AfterMode(createdMs, config))
  }

  function AfterMode(createdMs: int, config: Option<Reply>): seq<Member> {
    [Member("module", Str("valkey-ftdc"))] +
    ([Member("compression", Str("none"))] + ([Member("created_at_ms", Num(IntText(createdMs)))] + ConfigMember(config)))
  }

  function ConfigMember(config: Option<Reply>): seq<Member> {
    if config.None? then [] else [Member("config", ReplyJson(config.value))]
  }

  function MetadataText(deltaMode: bool, createdMs: int, config: Option<Reply>): string {
    Print(MetadataJson(deltaMode, createdMs, config))
  }

  // ----- an answer as a map and as a flat list ----------------------------------------------------------

  function Flattened(entries: seq<Entry>): seq<Reply> {
    if entries == [] then [] else [StringReply(entries[0].key), entries[0].value] + Flattened(entries[1..])
  }

  /** For every map: the server may answer with the map itself or, in the older protocol, with the flat
      list of its keys and values; the metadata is the same. */
  lemma {:induction false} MapOrList(entries: seq<Entry>)
    ensures ReplyJson(ArrayReply(Flattened(entries))) == ReplyJson(MapReply(entries))
  {
    FlattenedPairs(entries);
  }

  lemma {:induction false} FlattenedPairs(entries: seq<Entry>)
    ensures IsPairList(Flattened(entries)) && PairMembers(Flattened(entries)) == EntryMembers(entries)
  {
    if entries != [] {
      var list, more := Flattened(entries), Flattened(entries[1..]);
      FlattenedPairs(entries[1..]);
      assert list[2..] == more;
      assert forall i :: 2 <= i < |list| ==> list[i] == more[i - 2];
    }
  }

  // ----- the writer ---------------------------------------------------------------------------------------

  /** json_write_reply(). The stream is a buffer; a write that fails is the header that fails. */
  method WriteReply(buf: Buffer, reply: Reply)
    requires buf.Valid()
    modifies buf, buf.data
    ensures buf.Valid() && (buf.data == old(buf.data) || fresh(buf.data))
    ensures buf.Contents() == old(buf.Contents()) + Print(ReplyJson(reply))
    decreases reply, 0
  {
    match reply
    case StringReply(text) => AppendJsonString(buf, text);
    case TextReply(text) => AppendJsonString(buf, text);
    case IntegerReply(n) => buf.Append(IntText(n));
    case DoubleReply(printed) => buf.Append(printed);
    case BoolReply(value) => buf.Append(if value then "true" else "false");
    case MapReply(entries) => WriteMap(buf, entries);
    case ArrayReply(elements) =>
      var pairs := TestPairs(elements);
      if pairs {
        WritePairs(buf, elements);
      } else {
        WriteElements(buf, elements);
      }
    case NullReply => buf.Append("null");
  }

  /** json_write_map_reply() */
  method WriteMap(buf: Buffer, entries: seq<Entry>)
    requires buf.Valid()
    modifies buf, buf.data
    ensures buf.Valid() && (buf.data == old(buf.data) || fresh(buf.data))
    ensures buf.Contents() == old(buf.Contents()) + Print(Obj(EntryMembers(entries)))
    decreases entries, 1
  {
    ghost var before := buf.Contents();
    ghost var whole := before + "{" + PrintMembers(EntryMembers(entries));
    buf.Append("{");
    var i := 0;
    assert entries[0..] == entries;
    while i < |entries|
      invariant i <= |entries| && buf.Valid() && (buf.data == old(buf.data) || fresh(buf.data))
      invariant buf.Contents() + Pending(i == 0, EntryMembers(entries[i..])) == whole
    {
      EntriesNext(entries, i);
      WriteEntry(buf, i == 0, entries[i].key, entries[i].value, EntryMembers(entries[i + 1..]));
      i := i + 1;
    }
    assert buf.Contents() == whole;
    buf.Append("}");
    ObjectText(before, EntryMembers(entries));
  }

  lemma EntriesNext(entries: seq<Entry>, i: nat)
    requires i < |entries|
    ensures EntryMembers(entries[i..]) ==
            [Member(entries[i].key, ReplyJson(entries[i].value))] + EntryMembers(entries[i + 1..])
  {
    assert entries[i..][1..] == entries[i + 1..];
  }

  /** A key and its value, with a comma before all but the first. */
  method WriteEntry(buf: Buffer, first: bool, key: string, value: Reply, ghost rest: seq<Member>)
    requires buf.Valid()
    modifies buf, buf.data
    ensures buf.Valid() && (buf.data == old(buf.data) || fresh(buf.data))
    ensures buf.Contents() + Pending(false, rest) ==
            old(buf.Contents()) + Pending(first, [Member(key, ReplyJson(value))] + rest)
    decreases value, 2
  {
    ghost var before := buf.Contents();
    AppendKey(buf, first, key);
    WriteReply(buf, value);
    MemberAppended(before, first, Member(key, ReplyJson(value)), rest);
  }

  /** The first loop of json_write_array_reply(). */
  method TestPairs(elements: seq<Reply>) returns (pairs: bool)
    ensures pairs == IsPairList(elements)
  {
    if |elements| % 2 != 0 {
      return false;
    }
    var i := 0;
    while i < |elements|
      invariant i <= |elements| && i % 2 == 0
      invariant forall k :: 0 <= k < i && k % 2 == 0 ==> elements[k].StringReply?
    {
      if !elements[i].StringReply? {
        return false;
      }
      i := i + 2;
    }
    return true;
  }

  /** The second loop: keys and values. */
  method WritePairs(buf: Buffer, elements: seq<Reply>)
    requires buf.Valid() && IsPairList(elements)
    modifies buf, buf.data
    ensures buf.Valid() && (buf.data == old(buf.data) || fresh(buf.data))
    ensures buf.Contents() == old(buf.Contents()) + Print(Obj(PairMembers(elements)))
    decreases elements, 1
  {
    ghost var before := buf.Contents();
    ghost var whole := before + "{" + PrintMembers(PairMembers(elements));
    buf.Append("{");
    var i := 0;
    assert elements[0..] == elements;
    while i < |elements|
      invariant i <= |elements| && IsPairList(elements[i..])
      invariant buf.Valid() && (buf.data == old(buf.data) || fresh(buf.data))
      invariant buf.Contents() + Pending(i == 0, PairMembers(elements[i..])) == whole
    {
      PairsNext(elements, i);
      WriteEntry(buf, i == 0, elements[i].text, elements[i + 1], PairMembers(elements[i + 2..]));
      i := i + 2;
    }
    assert buf.Contents() == whole;
    buf.Append("}");
    ObjectText(before, PairMembers(elements));
  }

  lemma PairsNext(elements: seq<Reply>, i: nat)
    requires i < |elements| && IsPairList(elements[i..])
    ensures i + 2 <= |elements| && elements[i].StringReply? && IsPairList(elements[i + 2..])
    ensures PairMembers(elements[i..]) ==
            [Member(elements[i].text, ReplyJson(elements[i + 1]))] + PairMembers(elements[i + 2..])
  {
    var here, next := elements[i..], elements[i + 2..];
    assert here[0] == elements[i] && here[1] == elements[i + 1] && here[2..] == next;
    assert forall k :: 0 <= k < |next| ==> next[k] == here[k + 2];
  }

  /** The last loop: plain elements. */
  method WriteElements(buf: Buffer, elements: seq<Reply>)
    requires buf.Valid()
    modifies buf, buf.data
    ensures buf.Valid() && (buf.data == old(buf.data) || fresh(buf.data))
    ensures buf.Contents() == old(buf.Contents()) + Print(Arr(ElementItems(elements)))
    decreases elements, 1
  {
    ghost var before := buf.Contents();
    ghost var whole := before + "[" + PrintItems(ElementItems(elements));
    buf.Append("[");
    var i := 0;
    assert elements[0..] == elements;
    while i < |elements|
      invariant i <= |elements| && buf.Valid() && (buf.data == old(buf.data) || fresh(buf.data))
      invariant buf.Contents() + PendingItems(i == 0, ElementItems(elements[i..])) == whole
    {
      ElementsNext(elements, i);
      WriteElement(buf, i == 0, elements[i], ElementItems(elements[i + 1..]));
      i := i + 1;
    }
    assert buf.Contents() == whole;
    buf.Append("]");
    ArrayText(before, ElementItems(elements));
  }

  lemma ElementsNext(elements: seq<Reply>, i: nat)
    requires i < |elements|
    ensures ElementItems(elements[i..]) == [ReplyJson(elements[i])] + ElementItems(elements[i + 1..])
  {
    assert elements[i..][1..] == elements[i + 1..];
  }

  method WriteElement(buf: Buffer, first: bool, element: Reply, ghost rest: seq<Json>)
    requires buf.Valid()
    modifies buf, buf.data
    ensures buf.Valid() && (buf.data == old(buf.data) || fresh(buf.data))
    ensures buf.Contents() + PendingItems(false, rest) ==
            old(buf.Contents()) + PendingItems(first, [ReplyJson(element)] + rest)
    decreases element, 2
  {
    ghost var before := buf.Contents();
    if !first {
      buf.Append(",");
    }
    assert buf.Contents() == before + if first then "" else ",";
    WriteReply(buf, element);
    ItemWritten(before, first, ReplyJson(element), rest);
  }

  function PendingItems(first: bool, items: seq<Json>): string {
    if first || items == [] then PrintItems(items) else "," + PrintItems(items)
  }

  lemma ItemWritten(before: string, first: bool, item: Json, rest: seq<Json>)
    ensures before + (if first then "" else ",") + Print(item) + PendingItems(false, rest) ==
            before + PendingItems(first, [item] + rest)
  {
    var sep, text := if first then "" else ",", Print(item);
    ItemsNext(item, rest);
    Regroup(before + sep, text, PendingItems(false, rest));
    Regroup(before, sep, text + PendingItems(false, rest));
    assert first ==> sep + (text + PendingItems(false, rest)) == text + PendingItems(false, rest);
  }

  lemma ItemsNext(item: Json, rest: seq<Json>)
    ensures PrintItems([item] + rest) == Print(item) + PendingItems(false, rest)
  {
    if rest == [] {
      assert [item] + rest == [item];
      assert Print(item) + "" == Print(item);
    } else {
      assert ([item] + rest)[1..] == rest;
      Regroup(Print(item), ",", PrintItems(rest));
    }
  }

  lemma ArrayText(before: string, items: seq<Json>)
    ensures before + "[" + PrintItems(items) + "]" == before + Print(Arr(items))
  {
    Regroup(before, "[", PrintItems(items));
    Regroup(before, "[" + PrintItems(items), "]");
  }

  /** write_metrics_metadata(), without the newline; one call for each conversion of its format. */
  method WriteMetadata(deltaMode: bool, createdMs: int, config: Option<Reply>) returns (text: string)
    ensures text == MetadataText(deltaMode, createdMs, config)
  {
    var buf := new Buffer(FIRST_CAPACITY);
    buf.Append("{");
    assert buf.Contents() == "{";
    var version := Num(IntText(if deltaMode then FORMAT_DELTA else FORMAT_SNAPSHOT));
    AppendField(buf, true, "format_version", version, AfterVersion(deltaMode, createdMs, config));
    AppendAfterVersion(buf, deltaMode, createdMs, config);
    buf.Append("}");
    MetadataWritten(deltaMode, createdMs, config);
    text := buf.data[..buf.len];
  }

  lemma MetadataWritten(deltaMode: bool, createdMs: int, config: Option<Reply>)
    ensures "{" + Pending(true, MetadataJson(deltaMode, createdMs, config).members) + "}" ==
            MetadataText(deltaMode, createdMs, config)
  {
  }

  method AppendAfterVersion(buf: Buffer, deltaMode: bool, createdMs: int, config: Option<Reply>)
    requires buf.Valid()
    modifies buf, buf.data
    ensures buf.Valid() && (buf.data == old(buf.data) || fresh(buf.data))
    ensures buf.Contents() == old(buf.Contents()) + Pending(false, AfterVersion(deltaMode, createdMs, config))
  {
    ghost var rest := AfterMode(createdMs, config);
    ghost var mode := [Member("delta_mode", Bool(deltaMode))];
    AppendField(buf, false, "schema_version", Num(IntText(METADATA_VERSION)), mode + rest);
    AppendField(buf, false, "delta_mode", Bool(deltaMode), rest);
    AppendAfterMode(buf, createdMs, config);
  }

  method AppendAfterMode(buf: Buffer, createdMs: int, config: Option<Reply>)
    requires buf.Valid()
    modifies buf, buf.data
    ensures buf.Valid() && (buf.data == old(buf.data) || fresh(buf.data))
    ensures buf.Contents() == old(buf.Contents()) + Pending(false, AfterMode(createdMs, config))
  {
    ghost var created := Member("created_at_ms", Num(IntText(createdMs)));
    ghost var rest := [created] + ConfigMember(config);
    AppendField(buf, false, "module", Str("valkey-ftdc"), [Member("compression", Str("none"))] + rest);
    AppendField(buf, false, "compression", Str("none"), rest);
    AppendField(buf, false, "created_at_ms", Num(IntText(createdMs)), ConfigMember(config));
    AppendConfig(buf, config);
  }

  method AppendConfig(buf: Buffer, config: Option<Reply>)
    requires buf.Valid()
    modifies buf, buf.data
    ensures buf.Valid() && (buf.data == old(buf.data) || fresh(buf.data))
    ensures buf.Contents() == old(buf.Contents()) + Pending(false, ConfigMember(config))
  {
    ghost var before := buf.Contents();
    if config.Some? {
      ghost var m := Member("config", ReplyJson(config.value));
      AppendKey(buf, false, "config");
      WriteReply(buf, config.value);
      MemberAppended(before, false, m, []);
      assert [m] + [] == [m] && Pending(false, []) == "";
    } else {
      assert before + "" == before;
    }
  }
}
