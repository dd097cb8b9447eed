/** The text lines a tile types out for one item
    (exhibit-kiosk/src/components/Card.tsx): title, then subtitle, then the
    metadata. */
module Card {
  import opened Wrappers
  import opened Format
  import opened Event

  /** The lines an optional title or subtitle contributes. */
  function FieldLines(s: Option<string>): (r: seq<string>)
    ensures Filled(s) ==> r == [s.value]
    ensures !Filled(s) ==> r == []
  {
    if Filled(s) then [s.value] else []
  }

  /** How many lines `meta` contributes: none when it is falsy, one for a
      string, one per entry otherwise. */
  function MetaLineCount(meta: JsValue): (n: nat)
    ensures !Truthy(meta) ==> n == 0
    ensures Truthy(meta) && meta.Str? ==> n == 1
    ensures meta.Object? ==> n == |meta.entries|
    ensures meta.Array? ==> n == |meta.items|
    ensures Truthy(meta) && !meta.Str? ==> n == |Entries(meta)|
  {
    if !Truthy(meta) then 0 else if meta.Str? then 1 else |Entries(meta)|
  }

  /** One metadata entry as `key: value`. */
  function EntryLine(e: (string, JsValue), stringify: JsValue -> string): (r: string)
    ensures |r| == |e.0| + 2 + |Fmt(e.1, stringify)|
    ensures r[..|e.0|] == e.0 && r[|e.0|..|e.0| + 2] == ": " && r[|e.0| + 2..] == Fmt(e.1, stringify)
  {
    e.0 + ": " + Fmt(e.1, stringify)
  }

  function EntryLines(es: seq<(string, JsValue)>, stringify: JsValue -> string): (r: seq<string>)
    ensures |r| == |es|
    ensures forall k :: 0 <= k < |r| ==> r[k] == EntryLine(es[k], stringify)
  {
    if es == [] then [] else [EntryLine(es[0], stringify)] + EntryLines(es[1..], stringify)
  }

  /** The lines `meta` contributes, in entry order. */
  function MetaLines(meta: JsValue, stringify: JsValue -> string): (r: seq<string>)
    ensures |r| == MetaLineCount(meta)
    ensures Truthy(meta) && meta.Str? ==> r == [meta.s]
    ensures Truthy(meta) && !meta.Str? ==>
      forall k :: 0 <= k < |r| ==> r[k] == Entries(meta)[k].0 + ": " + Fmt(Entries(meta)[k].1, stringify)
  {
    if !Truthy(meta) then []
    else if meta.Str? then [meta.s]
    else
      EntryLines(Entries(meta), stringify)
  }

  /** The tile's lines: title and subtitle when they are non-empty, in that
      order, followed by the metadata lines. */
  function Lines(item: EventItem, stringify: JsValue -> string): (r: seq<string>)
    ensures |r| == |FieldLines(item.title)| + |FieldLines(item.subtitle)| + MetaLineCount(item.meta)
    ensures Filled(item.title) ==> r[0] == item.title.value
    ensures Filled(item.subtitle) ==> r[|FieldLines(item.title)|] == item.subtitle.value
    ensures r[|FieldLines(item.title)| + |FieldLines(item.subtitle)|..] == MetaLines(item.meta, stringify)
  {
    FieldLines(item.title) + FieldLines(item.subtitle) + MetaLines(item.meta, stringify)
  }

  lemma PrefixStep(arr0: seq<string>, want: seq<string>, i: nat)
    requires i < |want|
    ensures arr0 + want[..i + 1] == (arr0 + want[..i]) + [want[i]]
  {
    assert want[..i + 1] == want[..i] + [want[i]];
  }

  /** The `for` loop over `Object.entries(meta)`: one `key: value` line
      pushed per entry. */
  method PushEntryLines(arr0: seq<string>, entries: seq<(string, JsValue)>, stringify: JsValue -> string)
    returns (arr: seq<string>)
    ensures arr == arr0 + EntryLines(entries, stringify)
  {
    ghost var want := EntryLines(entries, stringify);
    arr := arr0;
    var i := 0;
    while i < |entries|
      invariant 0 <= i <= |entries|
      invariant arr == arr0 + want[..i]
    {
      var line := EntryLine(entries[i], stringify);
      assert line == want[i];
      PrefixStep(arr0, want, i);
      arr := arr + [line];
      i := i + 1;
    }
    assert want[..i] == want;
  }

  /** The `lines` builder as the source writes it: push the title and the
      subtitle when present, then the string meta or one line per entry. */
  method BuildLines(item: EventItem, stringify: JsValue -> string) returns (arr: seq<string>)
    ensures arr == Lines(item, stringify)
  {
    arr := [];
    if Filled(item.title) { arr := arr + [item.title.value]; }
    if Filled(item.subtitle) { arr := arr + [item.subtitle.value]; }
    assert arr == FieldLines(item.title) + FieldLines(item.subtitle);
    if Truthy(item.meta) {
      if item.meta.Str? {
        arr := arr + [item.meta.s];
      } else {
        arr := PushEntryLines(arr, Entries(item.meta), stringify);
      }
    }
  }
}
