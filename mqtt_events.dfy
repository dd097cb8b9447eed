/** The detection adapter (express-mqtt-server/mqttEvents.js): it picks the
    class of an observation, builds a base64 data URL for its image,
    suppresses observation ids seen among the last ten, gates on class and
    confidence, and publishes one event per accepted observation. */
module MqttEvents {
  import opened Wrappers
  import opened Format
  import opened Event

  const HumanType: string := "Human"
  const FaceType: string := "Face"
  const MinConfidence: real := 0.3
  const RecentObsIdsMax: nat := 10

  /** One `class` object or `classes` entry. */
  datatype ClassEntry = ClassEntry(classType: Option<string>, score: Option<real>, confidence: Option<real>)

  /** An observation id: `track_id ?? id` when it is a string, number or boolean. */
  datatype ObsId = IdText(text: string) | IdNumber(n: int) | IdFlag(flag: bool)

  /** A parsed message. `cls` is the `class` field, `classes` the `classes`
      field when it is an array; absent fields are `None`/`Undefined`. */
  datatype Observation = Observation(
    cls: Option<ClassEntry>,
    classes: Option<seq<ClassEntry>>,
    trackId: Option<ObsId>,
    id: Option<ObsId>,
    frameTimestamp: Option<int>,
    imageData: JsValue,
    imageBoundingBox: JsValue,
    boundingBox: JsValue,
    observationsLength: Option<nat>)

  /** The class type and score of an observation. */
  datatype ClassInfo = ClassInfo(classType: Option<string>, score: Option<real>)

  // ---------------------------------------------------------------- classes

  /** `c?.type` is truthy. */
  predicate HasType(c: ClassEntry) {
    Filled(c.classType)
  }

  predicate IsHuman(c: ClassEntry) {
    c.classType == Some(HumanType)
  }

  /** The score an entry reports: `score ?? confidence`. */
  function ReportedScore(c: ClassEntry): (r: Option<real>)
    ensures c.score.Some? ==> r == c.score
    ensures c.score.None? ==> r == c.confidence
  {
    if c.score.Some? then c.score else c.confidence
  }

  /** The key the ranking sorts on: `score ?? 0`. */
  function RankScore(c: ClassEntry): (r: real)
    ensures c.score.Some? ==> r == c.score.value
    ensures c.score.None? ==> r == 0.0
  {
    c.score.GetOr(0.0)
  }

  /** The `Human` entries, in their order. */
  function Humans(cs: seq<ClassEntry>): (r: seq<ClassEntry>)
    ensures forall k :: 0 <= k < |r| ==> IsHuman(r[k]) && r[k] in cs
    ensures forall k :: 0 <= k < |cs| && IsHuman(cs[k]) ==> cs[k] in r
    ensures |r| <= |cs|
  {
    if cs == [] then []
    else (if IsHuman(cs[0]) then [cs[0]] else []) + Humans(cs[1..])
  }

  predicate AnyHuman(cs: seq<ClassEntry>) {
    exists k :: 0 <= k < |cs| && IsHuman(cs[k])
  }

  /** The filter keeps list order: an entry appended to the list is
      appended to its `Human` entries exactly when it is one. */
  lemma {:induction false} HumansAppend(cs: seq<ClassEntry>, c: ClassEntry)
    ensures Humans(cs + [c]) == Humans(cs) + (if IsHuman(c) then [c] else [])
    decreases |cs|
  {
    if cs == [] {
      assert Humans([c]) == (if IsHuman(c) then [c] else []) + Humans([]);
    } else {
      assert (cs + [c])[1..] == cs[1..] + [c];
      HumansAppend(cs[1..], c);
    }
  }

  /** The `b`-th `Human` entry sits at index `k` of the list, and the
      `Human` entries before `k` are exactly the first `b` of them. */
  lemma {:induction false} HumanPosition(cs: seq<ClassEntry>, b: nat) returns (k: nat)
    requires b < |Humans(cs)|
    ensures k < |cs| && cs[k] == Humans(cs)[b]
    ensures Humans(cs[..k]) == Humans(cs)[..b]
    decreases |cs|
  {
    var init, last := cs[..|cs| - 1], cs[|cs| - 1];
    assert cs == init + [last];
    HumansAppend(init, last);
    if b < |Humans(init)| {
      k := HumanPosition(init, b);
      assert cs[..k] == init[..k];
    } else {
      k := |cs| - 1;
    }
  }

  /** The index a stable sort by descending `score ?? 0` puts first: the
      first entry of greatest rank score. */
  function BestIndex(cs: seq<ClassEntry>): (k: nat)
    requires |cs| > 0
    ensures k < |cs|
    ensures forall j :: 0 <= j < |cs| ==> RankScore(cs[j]) <= RankScore(cs[k])
    ensures forall j :: 0 <= j < k ==> RankScore(cs[j]) < RankScore(cs[k])
  {
    if |cs| == 1 then 0
    else
      var b := BestIndex(cs[..|cs| - 1]);
      if RankScore(cs[|cs| - 1]) > RankScore(cs[b]) then |cs| - 1 else b
  }

  /** The entry a stable sort puts first among the candidates is, in the
      full list, a candidate strictly above every candidate before it. */
  lemma FirstBest(cs: seq<ClassEntry>, b: nat)
    requires |cs| > 0
    requires b == BestIndex(if |Humans(cs)| > 0 then Humans(cs) else cs)
    ensures exists k :: (0 <= k < |cs| && cs[k] == (if |Humans(cs)| > 0 then Humans(cs) else cs)[b]
      && (!AnyHuman(cs) || IsHuman(cs[k]))
      && (forall j :: 0 <= j < k && (!AnyHuman(cs) || IsHuman(cs[j])) ==> RankScore(cs[j]) < RankScore(cs[k])))
  {
    var hs := Humans(cs);
    if |hs| > 0 {
      assert AnyHuman(cs) by {
        assert IsHuman(hs[0]) && hs[0] in cs;
      }
      var k := HumanPosition(cs, b);
      forall j | 0 <= j < k && IsHuman(cs[j])
        ensures RankScore(cs[j]) < RankScore(cs[k])
      {
        assert cs[..k][j] == cs[j];
        assert cs[j] in hs[..b];
      }
    } else {
      assert !AnyHuman(cs);
    }
  }

  /** The entry `getClassInfo` reads: the singular `class` when its type is
      set; otherwise, for a non-empty `classes`, the best-ranked of the
      `Human` entries, or of all entries when there is none; else none. */
  function ChosenEntry(obs: Observation): (r: Option<ClassEntry>)
    ensures obs.cls.Some? && HasType(obs.cls.value) ==> r == obs.cls
    ensures !(obs.cls.Some? && HasType(obs.cls.value)) && obs.classes.Some? && |obs.classes.value| > 0 ==>
      && r.Some? && r.value in obs.classes.value
      && (AnyHuman(obs.classes.value) ==>
            IsHuman(r.value) && forall c :: c in obs.classes.value && IsHuman(c) ==> RankScore(c) <= RankScore(r.value))
      && (!AnyHuman(obs.classes.value) ==>
            forall c :: c in obs.classes.value ==> RankScore(c) <= RankScore(r.value))
      // ties go to the candidate that comes first in the list
      && (exists k :: 0 <= k < |obs.classes.value| && obs.classes.value[k] == r.value
           && (!AnyHuman(obs.classes.value) || IsHuman(obs.classes.value[k]))
           && (forall j :: 0 <= j < k && (!AnyHuman(obs.classes.value) || IsHuman(obs.classes.value[j])) ==>
                RankScore(obs.classes.value[j]) < RankScore(obs.classes.value[k])))
    ensures !(obs.cls.Some? && HasType(obs.cls.value)) && !(obs.classes.Some? && |obs.classes.value| > 0) ==>
      r == None
  {
    if obs.cls.Some? && HasType(obs.cls.value) then obs.cls
    else if obs.classes.Some? && |obs.classes.value| > 0 then
      var cs := obs.classes.value;
      var humans := Humans(cs);
      var candidates := if |humans| > 0 then humans else cs;
      var b := BestIndex(candidates);
      assert forall c :: c in cs && IsHuman(c) ==> c in humans;
      FirstBest(cs, b);
      Some(candidates[b])
    else None
  }

  /** `getClassInfo`: the chosen entry's type and `score ?? confidence`,
      or neither when no entry is chosen. */
  function GetClassInfo(obs: Observation): (r: ClassInfo)
    ensures ChosenEntry(obs).Some? ==>
      r.classType == ChosenEntry(obs).value.classType && r.score == ReportedScore(ChosenEntry(obs).value)
    ensures ChosenEntry(obs).None? ==> r == ClassInfo(None, None)
  {
    match ChosenEntry(obs)
    case Some(c) => ClassInfo(c.classType, ReportedScore(c))
    case None => ClassInfo(None, None)
  }

  // --------------------------------------------------------------- data URL

  /** The characters `String.prototype.trim` removes (white space and line
      terminators). */
  predicate IsJsWhitespace(c: char) {
    || c == '\t' || c == '\n' || c == '\U{000B}' || c == '\U{000C}' || c == '\r' || c == ' '
    || c == '\U{00A0}' || c == '\U{1680}' || ('\U{2000}' <= c <= '\U{200A}')
    || c == '\U{2028}' || c == '\U{2029}' || c == '\U{202F}' || c == '\U{205F}'
    || c == '\U{3000}' || c == '\U{FEFF}'
  }

  /** How many white-space characters `s` starts with. */
  function LeadingSpace(s: string): (n: nat)
    ensures n <= |s|
    ensures forall k :: 0 <= k < n ==> IsJsWhitespace(s[k])
    ensures n < |s| ==> !IsJsWhitespace(s[n])
  {
    if s == [] || !IsJsWhitespace(s[0]) then 0 else 1 + LeadingSpace(s[1..])
  }

  /** How many white-space characters `s` ends with. */
  function TrailingSpace(s: string): (n: nat)
    ensures n <= |s|
    ensures forall k :: |s| - n <= k < |s| ==> IsJsWhitespace(s[k])
    ensures n < |s| ==> !IsJsWhitespace(s[|s| - n - 1])
  {
    if s == [] || !IsJsWhitespace(s[|s| - 1]) then 0 else 1 + TrailingSpace(s[..|s| - 1])
  }

  /** `s.trim()`: `s` without its leading and trailing white space. */
  function Trim(s: string): (r: string)
    ensures |r| <= |s|
    ensures r != [] ==> !IsJsWhitespace(r[0]) && !IsJsWhitespace(r[|r| - 1])
    ensures LeadingSpace(s) + |r| <= |s| && r == s[LeadingSpace(s)..LeadingSpace(s) + |r|]
    ensures forall k :: LeadingSpace(s) + |r| <= k < |s| ==> IsJsWhitespace(s[k])
  {
    var a := LeadingSpace(s);
    if a == |s| then
      assert s[|s|..|s|] == [];
      []
    else
      var b := TrailingSpace(s[a..]);
      assert s[a..][..|s| - a - b] == s[a..|s| - b];
      s[a..|s| - b]
  }

  /** Base64 padding: `=` appended up to the next multiple of four. */
  function Pad(s: string): (r: string)
    ensures |s| <= |r| <= |s| + 3
    ensures |r| % 4 == 0
    ensures r[..|s|] == s
    ensures forall k :: |s| <= k < |r| ==> r[k] == '='
    ensures |s| % 4 == 0 ==> r == s
  {
    var m := |s| % 4;
    if m == 0 then s else s + seq(4 - m, _ => '=')
  }

  predicate StartsWith(s: string, prefix: string) {
    |prefix| <= |s| && s[..|prefix|] == prefix
  }

  /** The media type claimed for a padded payload: JPEG when it starts with
      the base64 of a JPEG header, the generic image type otherwise. */
  function MimeFor(payload: string): (mime: string)
    ensures mime == "image/jpeg" <==> StartsWith(payload, "/9j/")
    ensures mime == "image/jpeg" || mime == "image/*"
  {
    if StartsWith(payload, "/9j/") then "image/jpeg" else "image/*"
  }

  /** `toDataUrlMaybe`: nothing for a non-string or a string shorter than
      eight characters; otherwise the trimmed, padded payload as a base64
      `data:` URL (RFC 2397, padding as in section 4 of RFC 4648). */
  function ToDataUrlMaybe(b64: JsValue): (r: Option<string>)
    ensures r.None? <==> !b64.Str? || |b64.s| < 8
    ensures r.Some? ==> ParseDataUrl(r.value) == Some((MimeFor(Pad(Trim(b64.s))), Pad(Trim(b64.s))))
  {
    if !b64.Str? || |b64.s| < 8 then None
    else
      var s := Pad(Trim(b64.s));
      DataUrlRoundTrip(MimeFor(s), s);
      Some("data:" + MimeFor(s) + ";base64," + s)
  }

  /** The index of the first `;` in `s`, or `|s|`. */
  function IndexOfSemicolon(s: string): (k: nat)
    ensures k <= |s|
    ensures forall j :: 0 <= j < k ==> s[j] != ';'
    ensures k < |s| ==> s[k] == ';'
  {
    if s == [] || s[0] == ';' then 0 else 1 + IndexOfSemicolon(s[1..])
  }

  /** Reads a base64 `data:` URL back into its media type and payload. */
  function ParseDataUrl(url: string): Option<(string, string)> {
    if !StartsWith(url, "data:") then None
    else
      var rest := url[5..];
      var k := IndexOfSemicolon(rest);
      if StartsWith(rest[k..], ";base64,") then Some((rest[..k], rest[k + 8..])) else None
  }

  /** A media type without `;` and a payload are read back from the URL
      built from them. */
  lemma DataUrlRoundTrip(mime: string, payload: string)
    requires forall j :: 0 <= j < |mime| ==> mime[j] != ';'
    ensures ParseDataUrl("data:" + mime + ";base64," + payload) == Some((mime, payload))
  {
    var url := "data:" + mime + ";base64," + payload;
    assert url[..5] == "data:";
    var rest := url[5..];
    assert rest == mime + ";base64," + payload;
    assert rest[|mime|] == ';';
    assert IndexOfSemicolon(rest) == |mime| by {
      IndexOfSemicolonAt(rest, |mime|);
    }
    assert rest[|mime|..] == ";base64," + payload;
    assert rest[|mime|..][..8] == ";base64,";
    assert rest[..|mime|] == mime;
    assert rest[|mime| + 8..] == payload;
  }

  lemma {:induction false} IndexOfSemicolonAt(s: string, k: nat)
    requires k < |s| && s[k] == ';'
    requires forall j :: 0 <= j < k ==> s[j] != ';'
    ensures IndexOfSemicolon(s) == k
  {
    if k > 0 {
      IndexOfSemicolonAt(s[1..], k - 1);
    }
  }

  // ------------------------------------------------------------ the handler

  /** The id as the parsed JSON value it came from. */
  function IdValue(id: ObsId): JsValue {
    match id
    case IdText(s) => Str(s)
    case IdNumber(n) => Number(n)
    case IdFlag(b) => Bool(b)
  }

  /** `!obsId` is false: the id is JavaScript-truthy. */
  function IdTruthy(id: ObsId): (b: bool)
    ensures b <==> Format.Truthy(IdValue(id))
  {
    match id
    case IdText(s) => s != ""
    case IdNumber(n) => n != 0
    case IdFlag(b) => b
  }

  /** `track_id ?? id`, kept only when it is truthy. */
  function ObsIdOf(obs: Observation): (r: Option<ObsId>)
    ensures r.Some? ==> IdTruthy(r.value)
    ensures obs.trackId.Some? ==> r == (if IdTruthy(obs.trackId.value) then obs.trackId else None)
    ensures obs.trackId.None? ==> r == (if obs.id.Some? && IdTruthy(obs.id.value) then obs.id else None)
  {
    var raw := if obs.trackId.Some? then obs.trackId else obs.id;
    if raw.Some? && IdTruthy(raw.value) then raw else None
  }

  /** `${obsId}`. */
  function IdString(id: ObsId): (r: string)
    ensures id.IdText? ==> r == id.text
    ensures id.IdNumber? ==> r == IntToString(id.n)
    ensures id.IdFlag? ==> r == if id.flag then "true" else "false"
  {
    match id
    case IdText(s) => s
    case IdNumber(n) => IntToString(n)
    case IdFlag(b) => if b then "true" else "false"
  }

  predicate NoDuplicates(ids: seq<ObsId>) {
    forall j, k :: 0 <= j < k < |ids| ==> ids[j] != ids[k]
  }

  /** The recent-id buffer after recording `id`: pushed at the back, the
      oldest shifted out beyond ten. */
  function Remember(recent: seq<ObsId>, id: ObsId): (r: seq<ObsId>)
    requires |recent| <= RecentObsIdsMax
    ensures |r| <= RecentObsIdsMax && |r| >= 1
    ensures r[|r| - 1] == id
    ensures |recent| < RecentObsIdsMax ==> r == recent + [id]
    ensures |recent| == RecentObsIdsMax ==> r == recent[1..] + [id]
    ensures NoDuplicates(recent) && id !in recent ==> NoDuplicates(r)
  {
    var pushed := recent + [id];
    if |pushed| > RecentObsIdsMax then pushed[1..] else pushed
  }

  /** The class gate: a `Human` or `Face` whose score, when present, is at
      least the minimum confidence. */
  function PassesGate(info: ClassInfo): (b: bool)
    ensures b ==> info.classType.Some? && info.classType.value in [HumanType, FaceType]
    ensures info.score.Some? && info.score.value < MinConfidence ==> !b
    ensures info.classType in [Some(HumanType), Some(FaceType)] && (info.score.None? || info.score.value >= MinConfidence) ==> b
  {
    (info.classType == Some(HumanType) || info.classType == Some(FaceType))
    && (info.score.None? || info.score.value >= MinConfidence)
  }

  /** The `meta` of a published event. */
  datatype DetectionMeta = DetectionMeta(
    topic: string,
    trackId: ObsId,
    classInfo: ClassInfo,
    observations: nat,
    bbox: JsValue)

  /** A published event. */
  datatype AxisEvent = AxisEvent(
    id: string,
    timestamp: int,
    title: string,
    subtitle: string,
    meta: DetectionMeta,
    imageUrl: Option<string>)

  /** The event published for an accepted observation. The time stamp is the
      frame's, else `now`; `localeTime` stands for `toLocaleTimeString`. */
  function BuildEvent(topic: string, obs: Observation, obsId: ObsId, info: ClassInfo,
                      now: int, localeTime: int -> string): (e: AxisEvent)
    requires info.classType.Some?
    ensures e.title == "Observe " + info.classType.value
    ensures e.meta.trackId == obsId && e.meta.classInfo == info && e.meta.topic == "object_recognition"
    ensures e.timestamp == (if obs.frameTimestamp.Some? then obs.frameTimestamp.value else now)
    ensures e.id == topic + "-" + IntToString(e.timestamp) + "-" + IdString(obsId)
    ensures e.subtitle == localeTime(e.timestamp)
    ensures e.meta.observations == (if obs.observationsLength.Some? && obs.observationsLength.value != 0
                                     then obs.observationsLength.value else 1)
    ensures e.meta.bbox == (if obs.boundingBox.Undefined? || obs.boundingBox.Null? then obs.imageBoundingBox else obs.boundingBox)
    ensures Format.Truthy(obs.imageData) ==> e.imageUrl == ToDataUrlMaybe(obs.imageData)
    ensures !Format.Truthy(obs.imageData) ==> e.imageUrl == None
  {
    var ts := obs.frameTimestamp.GetOr(now);
    var count := if obs.observationsLength.Some? && obs.observationsLength.value != 0 then obs.observationsLength.value else 1;
    var bbox := if obs.boundingBox.Undefined? || obs.boundingBox.Null? then obs.imageBoundingBox else obs.boundingBox;
    AxisEvent(
      topic + "-" + IntToString(ts) + "-" + IdString(obsId),
      ts,
      "Observe " + info.classType.value,
      localeTime(ts),
      DetectionMeta("object_recognition", obsId, info, count, bbox),
      if Format.Truthy(obs.imageData) then ToDataUrlMaybe(obs.imageData) else None)
  }

  /** The message handler with its module-level recent-id buffer; `emitted`
      is what it has published on the bus. */
  class Relay {
    var recent: seq<ObsId>
    var emitted: seq<AxisEvent>

    ghost predicate Valid()
      reads this
    {
      |recent| <= RecentObsIdsMax && NoDuplicates(recent)
    }

    constructor ()
      ensures Valid() && recent == [] && emitted == []
    {
      recent, emitted := [], [];
    }

    /** One MQTT message; `msg` is `None` when it is not a JSON object. The
        id is recorded before the gate, so a gated observation still
        suppresses its id. */
    method OnMessage(topic: string, msg: Option<Observation>, now: int, localeTime: int -> string)
      returns (published: bool)
      requires Valid()
      modifies this
      ensures Valid()
      ensures msg.None? || ObsIdOf(msg.value).None? || ObsIdOf(msg.value).value in old(recent) ==>
        recent == old(recent) && emitted == old(emitted) && !published
      ensures msg.Some? && ObsIdOf(msg.value).Some? && ObsIdOf(msg.value).value !in old(recent) ==>
        && recent == Remember(old(recent), ObsIdOf(msg.value).value)
        && published == PassesGate(GetClassInfo(msg.value))
        && emitted == old(emitted) +
             (if published
              then [BuildEvent(topic, msg.value, ObsIdOf(msg.value).value, GetClassInfo(msg.value), now, localeTime)]
              else [])
    {
      published := false;
      if msg.None? {
        return;
      }
      var obs := msg.value;
      var info := GetClassInfo(obs);
      var obsId := ObsIdOf(obs);
      if obsId.None? {
        return;
      }
      if obsId.value in recent {
        return;
      }
      recent := recent + [obsId.value];
      if |recent| > RecentObsIdsMax {
        recent := recent[1..];
      }
      if info.classType != Some(HumanType) && info.classType != Some(FaceType) {
        return;
      }
      if info.score.Some? && info.score.value < MinConfidence {
        return;
      }
      var evt := BuildEvent(topic, obs, obsId.value, info, now, localeTime);
      emitted := emitted + [evt];
      published := true;
    }
  }

  /** The same message delivered twice in a row publishes at most once: the
      second delivery finds its id among the recent ones. */
  method DeliverTwice(topic: string, obs: Observation, now: int, localeTime: int -> string)
    returns (events: seq<AxisEvent>)
    ensures |events| == if ObsIdOf(obs).Some? && PassesGate(GetClassInfo(obs)) then 1 else 0
  {
    var relay := new Relay();
    var first := relay.OnMessage(topic, Some(obs), now, localeTime);
    var second := relay.OnMessage(topic, Some(obs), now, localeTime);
    events := relay.emitted;
  }
}
