/**
 The bridge from worker output lines to published log entries, and the awaiting-human flag
 its hook maintains. Parsing a line, marshalling event data and masking secrets are library
 functions and appear as parameters.
 */
module Bridges {
  import opened Options
  import opened Utf8
  import opened LogHub
  import HubSpec

  type Text = seq<byte>

  /** A JSON value; `Other` is null, an array or an object. */
  datatype Value = Str(s: Text) | Num(n: real) | Bool(b: bool) | Other
  type Data = map<string, Value>

  datatype Usage = Usage(input: int, output: int, cacheRead: int, cacheCreate: int, cost: real)

  datatype LogEntry = LogEntry(
    at: int, kind: string, content: Text, model: Text, toolUseID: Text, usage: Option<Usage>,
    project: string, cardID: string, sessionID: string)

  /** Where a line comes from, and what the hook is told an entry came from. */
  datatype Key = Key(project: string, cardID: string, sessionID: string)

  /** An entry before it is stamped; its time is filled in later. */
  function Plain(kind: string, content: Text): LogEntry {
    LogEntry(0, kind, content, [], [], None, "", "", "")
  }

  /** The clock reading and the non-empty fields of the key are stamped onto the entry. */
  function Stamp(key: Key, now: int, e: LogEntry): LogEntry {
    e.(at := now,
       project := if key.project != "" then key.project else e.project,
       cardID := if key.cardID != "" then key.cardID else e.cardID,
       sessionID := if key.sessionID != "" then key.sessionID else e.sessionID)
  }

  function OriginOf(e: LogEntry): Key { Key(e.project, e.cardID, e.sessionID) }

  // ---------- fields of an event ----------

  function StrField(data: Data, key: string): Text {
    if key in data && data[key].Str? then data[key].s else []
  }

  /** Conversion to an integer truncates toward zero. */
  function Int64Field(data: Data, key: string): int {
    if key in data && data[key].Num? then
      (if data[key].n >= 0.0 then data[key].n.Floor else -((-data[key].n).Floor))
    else 0
  }

  function PositiveFloatField(data: Data, key: string): real {
    if key in data && data[key].Num? && data[key].n > 0.0 then data[key].n else 0.0
  }

  predicate IsSpace(r: rune) {
    r == 0x20 || 0x09 <= r <= 0x0D || r == 0x85 || r == 0xA0 || r == 0x1680 || 0x2000 <= r <= 0x200A
    || r == 0x2028 || r == 0x2029 || r == 0x202F || r == 0x205F || r == 0x3000
  }

  predicate Blank(s: Text)
    decreases |s|
  {
    s != [] ==> IsSpace(DecodeRune(s).0) && Blank(s[DecodeRune(s).1..])
  }

  // ---------- classification ----------

  /** MapExtra: an entry and its awaiting bit for kinds the bridge does not know. */
  type MapExtra = (string, Data) -> Option<(LogEntry, bool)>

  datatype Config = Config(
    parse: Text -> Option<(string, Data)>,
    marshal: Data -> Option<Text>,
    mask: (set<string>, Text) -> Text,
    surfaceAwaitingHuman: bool,
    surfaceRunState: bool,
    mapExtra: Option<MapExtra>)

  const TRUNCATE_AT: nat := 200
  const OPEN: Text := Ascii("(")
  const CLOSE: Text := Ascii(")")
  const NOT_RUN: Text := Ascii(" [not run - the turn ended first]")
  const AWAITING_HUMAN: Text := Ascii("awaiting_human")
  const AWAITING_INPUT: Text := Ascii("awaiting human input")
  const IDLE: Text := Ascii("idle")
  const WORKING: Text := Ascii("working")
  const DEFECT: Text := Ascii(" (suspected upstream defect: ")

  function SummarizeData(cfg: Config, data: Data): Text {
    if data == map[] || cfg.marshal(data).None? then [] else Truncated(cfg.marshal(data).value, TRUNCATE_AT)
  }

  function ToolCallContent(data: Data): Text {
    var call := StrField(data, "name") + OPEN + StrField(data, "raw_args") + CLOSE;
    var notRun := "dispatched" in data && data["dispatched"] == Bool(false);
    Truncated(if notRun then call + NOT_RUN else call, TRUNCATE_AT)
  }

  /** The entry an event becomes and whether it means waiting for a human; None for kinds not bridged. */
  function MapEvent(cfg: Config, kind: string, data: Data): Option<(LogEntry, bool)> {
    if kind == "model_response" then
      var content := StrField(data, "content");
      if Blank(content) then None
      else Some((Plain("text", content).(model := StrField(data, "model")), false))
    else if kind == "thinking" then Some((Plain("thinking", StrField(data, "content")), false))
    else if kind == "tool_call" then
      Some((Plain("tool_call", ToolCallContent(data)).(toolUseID := StrField(data, "id")), false))
    else if kind == "usage" then
      var usage := Usage(Int64Field(data, "prompt_tokens"), Int64Field(data, "completion_tokens"),
                         Int64Field(data, "cache_read_tokens"), Int64Field(data, "cache_creation_tokens"),
                         PositiveFloatField(data, "cost_usd"));
      Some((Plain("usage", []).(model := StrField(data, "model"), usage := Some(usage)), false))
    else if kind == "state_change" then
      if StrField(data, "state") == AWAITING_HUMAN then
        if cfg.surfaceAwaitingHuman then Some((Plain("system", AWAITING_INPUT), true))
        else if cfg.surfaceRunState then Some((Plain("status", IDLE), false))
        else None
      else Some((Plain("system", SummarizeData(cfg, data)), false))
    else if kind == "context_limit" then Some((Plain("system", SummarizeData(cfg, data)), false))
    else if kind == "error" then
      var content, defect := StrField(data, "error"), StrField(data, "suspected_upstream_defect");
      Some((Plain("stderr", if defect == [] then content
                            else content + DEFECT + defect + CLOSE), false))
    else if kind == "model_request" || kind == "user_input" then
      if cfg.surfaceRunState then Some((Plain("status", WORKING), false)) else None
    else if kind == "tool_result" || kind == "tool_repair" || kind == "verification" then None
    else if cfg.mapExtra.Some? then cfg.mapExtra.value(kind, data)
    else None
  }

  /** One line of worker output, from stdout or stderr. */
  datatype Input = Input(line: Text, isStderr: bool)

  function Mask(cfg: Config, secrets: Option<set<string>>, s: Text): Text {
    if secrets.None? then s else cfg.mask(secrets.value, s)
  }

  /** What a line publishes, if anything, and its awaiting bit. */
  function Bridged(cfg: Config, secrets: Option<set<string>>, key: Key, now: int, input: Input): Option<(LogEntry, bool)> {
    var raw := Some((Stamp(key, now, Plain("stderr", Mask(cfg, secrets, input.line))), false));
    if input.isStderr then raw
    else
      match cfg.parse(input.line)
      case None => raw
      case Some((kind, data)) =>
        match MapEvent(cfg, kind, data)
        case None => None
        case Some((e, awaiting)) => Some((Stamp(key, now, e).(content := Mask(cfg, secrets, e.content)), awaiting))
  }

  /** The hook call a published entry causes: none for stderr entries. */
  function Signal(published: Option<(LogEntry, bool)>): seq<(Key, bool)> {
    if published.None? || published.value.0.kind == "stderr" then []
    else [(OriginOf(published.value.0), published.value.1)]
  }

  // ---------- the bridge object ----------

  /** The awaiting hook of a backend: it remembers what it was told. */
  class Hook {
    var calls: seq<(Key, bool)>

    constructor ()
      ensures calls == []
    {
      calls := [];
    }

    method OnAwaiting(key: Key, awaiting: bool)
      modifies this
      ensures calls == old(calls) + [(key, awaiting)]
    {
      calls := calls + [(key, awaiting)];
    }
  }

  class Bridge {
    const cfg: Config
    const hub: LiveHub<LogEntry>
    const hook: Hook?
    /** The secrets masked in published content; None masks nothing. */
    var redactor: Option<set<string>>

    constructor (cfg: Config, hub: LiveHub<LogEntry>, hook: Hook?, redactor: Option<set<string>>)
      ensures this.cfg == cfg && this.hub == hub && this.hook == hook && this.redactor == redactor
    {
      this.cfg, this.hub, this.hook, this.redactor := cfg, hub, hook, redactor;
    }

    method SetRedactor(secrets: set<string>)
      modifies this
      ensures redactor == Some(secrets)
    {
      redactor := Some(secrets);
    }

    method Publish(e: LogEntry, awaiting: bool)
      modifies hub, hub.dropObserver, hook
      ensures hub.View() == HubSpec.Publish(old(hub.View()), e)
      ensures hook != null ==> hook.calls == old(hook.calls) + Signal(Some((e, awaiting)))
    {
      hub.Publish(e);
      if hook != null && e.kind != "stderr" {
        hook.OnAwaiting(Key(e.project, e.cardID, e.sessionID), awaiting);
      }
    }

    /**
     now is the clock at the time of the call, and out the entry that the hub received, if any.
     Whatever is published went through the masking; stderr and unparsable lines are masked whole.
     */
    method BridgeLine(key: Key, now: int, input: Input) returns (ghost out: Option<LogEntry>)
      modifies hub, hub.dropObserver, hook
      ensures hub.View() == if out.Some? then HubSpec.Publish(old(hub.View()), out.value) else old(hub.View())
      ensures out.Some? ==> Masked(cfg, redactor, out.value.content) && Stamped(key, now, out.value)
      ensures input.isStderr || cfg.parse(input.line).None? ==>
        && out.Some? && out.value.kind == "stderr"
        && out.value.content == (if redactor.Some? then cfg.mask(redactor.value, input.line) else input.line)
      ensures var bridged := Bridged(cfg, redactor, key, now, input);
        && out == (if bridged.Some? then Some(bridged.value.0) else None)
        && (hook != null ==> hook.calls == old(hook.calls) + Signal(bridged))
    {
      out := None;
      if input.isStderr {
        var raw := Stamp(key, now, Plain("stderr", Mask(cfg, redactor, input.line)));
        Publish(raw, false);
        out := Some(raw);
        return;
      }
      var ev := cfg.parse(input.line);
      if ev.None? {
        var raw := Stamp(key, now, Plain("stderr", Mask(cfg, redactor, input.line)));
        Publish(raw, false);
        out := Some(raw);
        return;
      }
      var mapped := MapEvent(cfg, ev.value.0, ev.value.1);
      if mapped.None? {
        return;
      }
      var (entry, awaiting) := mapped.value;
      entry := Stamp(key, now, entry);
      entry := entry.(content := Mask(cfg, redactor, entry.content));
      Publish(entry, awaiting);
      out := Some(entry);
    }
  }

  /** text is what masking with these secrets makes of something. */
  ghost predicate Masked(cfg: Config, secrets: Option<set<string>>, text: Text) {
    secrets.Some? ==> exists raw :: text == cfg.mask(secrets.value, raw)
  }

  /** The entry carries the clock reading and every non-empty field of the key. */
  ghost predicate Stamped(key: Key, now: int, e: LogEntry) {
    && e.at == now
    && (key.project != "" ==> e.project == key.project)
    && (key.cardID != "" ==> e.cardID == key.cardID)
    && (key.sessionID != "" ==> e.sessionID == key.sessionID)
  }

  /** What masking never lets through is never published, from any line of any worker. */
  lemma NothingLeaks(cfg: Config, b: Bridging, secrets: set<string>, leaks: Text -> bool)
    requires b.secrets == Some(secrets) && BridgedBy(cfg, b).Some?
    requires forall raw :: !leaks(cfg.mask(secrets, raw))
    ensures !leaks(BridgedBy(cfg, b).value.0.content)
  {
  }

  // ---------- whole line sequences ----------

  /** A line of some worker, with the time and the secrets in force when it was bridged. */
  datatype Bridging = Bridging(key: Key, at: int, input: Input, secrets: Option<set<string>>)

  type Out = Option<(LogEntry, bool)>

  function BridgedBy(cfg: Config, b: Bridging): Out {
    Bridged(cfg, b.secrets, b.key, b.at, b.input)
  }

  /** What each line of a sequence publishes. */
  function Outs(cfg: Config, lines: seq<Bridging>): seq<Out> {
    seq(|lines|, i requires 0 <= i < |lines| => BridgedBy(cfg, lines[i]))
  }

  /** All hook calls of a sequence of lines. */
  function Calls(outs: seq<Out>): seq<(Key, bool)> {
    if outs == [] then [] else Calls(outs[..|outs| - 1]) + Signal(outs[|outs| - 1])
  }

  /** The flag a hook that stores the latest value per key holds for k. */
  function Flag(calls: seq<(Key, bool)>, k: Key): Option<bool> {
    if calls == [] then None
    else if calls[|calls| - 1].0 == k then Some(calls[|calls| - 1].1)
    else Flag(calls[..|calls| - 1], k)
  }

  /** A non-stderr entry of origin k was published. */
  predicate Progress(out: Out, k: Key) {
    out.Some? && out.value.0.kind != "stderr" && OriginOf(out.value.0) == k
  }

  /** Position of the last non-stderr entry published for k, or -1. */
  function LastProgress(outs: seq<Out>, k: Key): (i: int)
    ensures -1 <= i < |outs|
    ensures i >= 0 ==> Progress(outs[i], k)
    ensures forall j :: i < j < |outs| ==> !Progress(outs[j], k)
  {
    if outs == [] then -1
    else if Progress(outs[|outs| - 1], k) then |outs| - 1
    else LastProgress(outs[..|outs| - 1], k)
  }

  /** The flag is the awaiting bit of the last non-stderr entry published for k. */
  lemma {:induction false} FlagIsLastProgress(outs: seq<Out>, k: Key)
    ensures var i := LastProgress(outs, k);
      Flag(Calls(outs), k) == if i < 0 then None else Some(outs[i].value.1)
  {
    if outs != [] {
      var n := |outs| - 1;
      FlagIsLastProgress(outs[..n], k);
      FlagAfter(Calls(outs[..n]), outs[n], k);
    }
  }

  lemma FlagAfter(before: seq<(Key, bool)>, out: Out, k: Key)
    ensures Flag(before + Signal(out), k) == if Progress(out, k) then Some(out.value.1) else Flag(before, k)
  {
    if Signal(out) == [] {
      assert before + Signal(out) == before;
    } else {
      assert (before + Signal(out))[..|before|] == before;
    }
  }

  lemma {:induction false} CallsConcat(a: seq<Out>, b: seq<Out>)
    ensures Calls(a + b) == Calls(a) + Calls(b)
  {
    if b == [] {
      assert a + b == a;
    } else {
      var n := |b| - 1;
      assert (a + b)[..|a + b| - 1] == a + b[..n];
      CallsConcat(a, b[..n]);
    }
  }

  /** Raw stderr, unparsable stdout, and events of kind error. */
  predicate Noise(cfg: Config, input: Input) {
    input.isStderr || cfg.parse(input.line).None? || cfg.parse(input.line).value.0 == "error"
  }

  lemma NoiseSignalsNothing(cfg: Config, b: Bridging)
    requires Noise(cfg, b.input)
    ensures Signal(BridgedBy(cfg, b)) == []
  {
  }

  /** Noise anywhere in any interleaving of workers changes no hook call, so no flag of any key. */
  lemma NoiseNeverTouchesFlags(cfg: Config, a: seq<Bridging>, noise: Bridging, b: seq<Bridging>)
    requires Noise(cfg, noise.input)
    ensures Calls(Outs(cfg, a + [noise] + b)) == Calls(Outs(cfg, a + b))
  {
    NoiseSignalsNothing(cfg, noise);
    var out := BridgedBy(cfg, noise);
    assert Outs(cfg, a + [noise] + b) == Outs(cfg, a) + [out] + Outs(cfg, b);
    assert Outs(cfg, a + b) == Outs(cfg, a) + Outs(cfg, b);
    OneSilent(Outs(cfg, a), out, Outs(cfg, b));
  }

  lemma OneSilent(a: seq<Out>, out: Out, b: seq<Out>)
    requires Signal(out) == []
    ensures Calls(a + [out] + b) == Calls(a + b)
  {
    CallsConcat(a + [out], b);
    CallsConcat(a, b);
    assert (a + [out])[..|a|] == a;
    assert Calls(a + [out]) == Calls(a) + [];
  }

  /** A line arms the flag exactly when it reports awaiting_human to a bridge that surfaces it, or MapExtra says so. */
  lemma ArmsIff(cfg: Config, b: Bridging)
    ensures
      var arms := exists k :: Signal(BridgedBy(cfg, b)) == [(k, true)];
      var ev := cfg.parse(b.input.line);
      arms <==>
        && !b.input.isStderr && ev.Some?
        && (ReportsAwaiting(cfg, ev.value.0, ev.value.1) || ExtraArms(cfg, ev.value.0, ev.value.1))
  {
    var s := Signal(BridgedBy(cfg, b));
    assert s != [] && s[0].1 ==> s == [(s[0].0, true)];
  }

  /** A state_change whose state is the string awaiting_human, on a bridge that surfaces it. */
  predicate ReportsAwaiting(cfg: Config, kind: string, data: Data) {
    kind == "state_change" && cfg.surfaceAwaitingHuman && "state" in data && data["state"] == Str(AWAITING_HUMAN)
  }

  /** MapExtra marks an entry of a kind of its own as awaiting, and does not type it stderr. */
  predicate ExtraArms(cfg: Config, kind: string, data: Data) {
    && !Known(kind) && cfg.mapExtra.Some?
    && match cfg.mapExtra.value(kind, data)
       case None => false
       case Some((e, awaiting)) => awaiting && e.kind != "stderr"
  }

  /** Kinds the bridge classifies itself. */
  predicate Known(kind: string) {
    kind in {"model_response", "thinking", "tool_call", "usage", "state_change", "context_limit", "error",
             "model_request", "user_input", "tool_result", "tool_repair", "verification"}
  }

  /** The hook is told the worker's own key, unless MapExtra filled in fields the key leaves empty. */
  lemma HookHearsTheWorkersKey(cfg: Config, b: Bridging)
    requires BridgedBy(cfg, b).Some?
    requires b.input.isStderr || cfg.parse(b.input.line).None? || Known(cfg.parse(b.input.line).value.0)
      || (b.key.project != "" && b.key.cardID != "" && b.key.sessionID != "")
    ensures OriginOf(BridgedBy(cfg, b).value.0) == b.key
  {
    if !b.input.isStderr && cfg.parse(b.input.line).Some? {
      var (kind, data) := cfg.parse(b.input.line).value;
      var e := MapEvent(cfg, kind, data).value.0;
      KnownKindsNameNoOrigin(cfg, kind, data);
      assert BridgedBy(cfg, b).value.0 == Stamp(b.key, b.at, e).(content := Mask(cfg, b.secrets, e.content));
    }
  }

  lemma KnownKindsNameNoOrigin(cfg: Config, kind: string, data: Data)
    ensures Known(kind) && MapEvent(cfg, kind, data).Some? ==> OriginOf(MapEvent(cfg, kind, data).value.0) == Key("", "", "")
  {
    if kind == "state_change" {
    } else if kind == "usage" {
    } else if kind == "error" {
    }
  }

  // ---------- published content ----------

  lemma ValidConcat(a: Text, b: Text)
    requires ValidUtf8(a) && ValidUtf8(b)
    ensures ValidUtf8(a + b)
  {
    var x :| Encode(x) == a;
    var y :| Encode(y) == b;
    EncodeConcat(x, y);
  }

  lemma {:induction false} AsciiValid(s: string)
    requires forall i :: 0 <= i < |s| ==> ' ' <= s[i] < '\U{80}'
    ensures ValidUtf8(Ascii(s))
  {
    if s == "" {
      assert Encode([]) == Ascii(s);
    } else {
      AsciiValid(s[1..]);
      var t :| Encode(t) == Ascii(s[1..]);
      assert Encode([s[0] as int as rune] + t) == [s[0] as int] + Ascii(s[1..]);
      assert Ascii(s) == [s[0] as int] + Ascii(s[1..]);
    }
  }

  lemma FixedTextsValid()
    ensures ValidUtf8(OPEN) && ValidUtf8(CLOSE) && ValidUtf8(NOT_RUN)
  {
    AsciiValid("(");
    AsciiValid(")");
    AsciiValid(" [not run - the turn ended first]");
  }

  /** Tool calls built from valid strings are published as valid text of at most 200 bytes. */
  lemma ToolCallContentValid(data: Data)
    requires ValidUtf8(StrField(data, "name")) && ValidUtf8(StrField(data, "raw_args"))
    ensures ValidUtf8(ToolCallContent(data)) && |ToolCallContent(data)| <= TRUNCATE_AT
  {
    FixedTextsValid();
    CallValid(StrField(data, "name"), StrField(data, "raw_args"), OPEN, CLOSE, NOT_RUN);
  }

  lemma CallValid(name: Text, args: Text, open: Text, close: Text, notRun: Text)
    requires ValidUtf8(name) && ValidUtf8(args) && ValidUtf8(open) && ValidUtf8(close) && ValidUtf8(notRun)
    ensures var call := name + open + args + close;
      && ValidUtf8(Truncated(call, TRUNCATE_AT)) && |Truncated(call, TRUNCATE_AT)| <= TRUNCATE_AT
      && ValidUtf8(Truncated(call + notRun, TRUNCATE_AT)) && |Truncated(call + notRun, TRUNCATE_AT)| <= TRUNCATE_AT
  {
    ValidConcat(name, open);
    ValidConcat(name + open, args);
    ValidConcat(name + open + args, close);
    ValidConcat(name + open + args + close, notRun);
    TruncationIsLongestValidPrefix(name + open + args + close, TRUNCATE_AT);
    TruncationIsLongestValidPrefix(name + open + args + close + notRun, TRUNCATE_AT);
  }
}
