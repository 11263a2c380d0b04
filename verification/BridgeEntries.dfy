/**
 What each kind of worker event is published as: type, masked content, model, tool id and usage,
 read off the fields of the event.
 */
module BridgeEntries {
  import opened Options
  import opened Utf8
  import opened Bridges

  /** The line is a stdout event of this kind with this data. */
  ghost predicate Reports(cfg: Config, b: Bridging, kind: string, data: Data) {
    !b.input.isStderr && cfg.parse(b.input.line) == Some((kind, data))
  }

  /** The field is this string; a missing field, or one of another type, counts as empty. */
  ghost predicate IsText(data: Data, field: string, t: Text) {
    if field in data && data[field].Str? then data[field] == Str(t) else t == []
  }

  /** The field is this number without its fraction, or 0 when it is no number. */
  ghost predicate IsCount(data: Data, field: string, n: int) {
    if field in data && data[field].Num? then
      var x := data[field].n;
      if x >= 0.0 then n as real <= x < n as real + 1.0 else n as real - 1.0 < x <= n as real
    else n == 0
  }

  /** The field is this positive number, or there is none and cost is 0. */
  ghost predicate IsCost(data: Data, field: string, cost: real) {
    if field in data && data[field].Num? && data[field].n > 0.0 then data[field] == Num(cost) else cost == 0.0
  }

  /** What goes out for a known kind: all of it from the worker's key, the clock and the arguments. */
  ghost function Sent(cfg: Config, b: Bridging, kind: string, content: Text, model: Text, tool: Text, usage: Option<Usage>): LogEntry {
    LogEntry(b.at, kind, if b.secrets.Some? then cfg.mask(b.secrets.value, content) else content,
             model, tool, usage, b.key.project, b.key.cardID, b.key.sessionID)
  }

  /** Blank text is white space only. */
  lemma {:induction false} BlankIff(text: seq<rune>)
    ensures Blank(Encode(text)) <==> forall i :: 0 <= i < |text| ==> IsSpace(text[i])
  {
    if text != [] {
      DecodeEncoded(text[0], Encode(text[1..]));
      EncodeRuneShape(text[0]);
      assert Encode(text)[|EncodeRune(text[0])|..] == Encode(text[1..]);
      BlankIff(text[1..]);
      assert text == [text[0]] + text[1..];
    }
  }

  lemma TextEntry(cfg: Config, b: Bridging, data: Data, content: Text, model: Text)
    requires Reports(cfg, b, "model_response", data) && IsText(data, "content", content) && IsText(data, "model", model)
    ensures BridgedBy(cfg, b) == if Blank(content) then None else Some((Sent(cfg, b, "text", content, model, [], None), false))
  {
  }

  lemma ThinkingEntry(cfg: Config, b: Bridging, data: Data, content: Text)
    requires Reports(cfg, b, "thinking", data) && IsText(data, "content", content)
    ensures BridgedBy(cfg, b) == Some((Sent(cfg, b, "thinking", content, [], [], None), false))
  {
  }

  /** A call that was not dispatched says so. */
  lemma ToolCallEntry(cfg: Config, b: Bridging, data: Data, id: Text, name: Text, args: Text)
    requires Reports(cfg, b, "tool_call", data)
    requires IsText(data, "id", id) && IsText(data, "name", name) && IsText(data, "raw_args", args)
    ensures
      var call := name + Ascii("(") + args + Ascii(")");
      var notRun := "dispatched" in data && data["dispatched"] == Bool(false);
      var content := if notRun then call + Ascii(" [not run - the turn ended first]") else call;
      BridgedBy(cfg, b) == Some((Sent(cfg, b, "tool_call", Truncated(content, 200), [], id, None), false))
  {
  }

  lemma UsageEntry(cfg: Config, b: Bridging, data: Data, model: Text, usage: Usage)
    requires Reports(cfg, b, "usage", data) && IsText(data, "model", model)
    requires IsCount(data, "prompt_tokens", usage.input) && IsCount(data, "completion_tokens", usage.output)
    requires IsCount(data, "cache_read_tokens", usage.cacheRead) && IsCount(data, "cache_creation_tokens", usage.cacheCreate)
    requires IsCost(data, "cost_usd", usage.cost)
    ensures BridgedBy(cfg, b) == Some((Sent(cfg, b, "usage", [], model, [], Some(usage)), false))
  {
    CountIs(data, "prompt_tokens", usage.input);
    CountIs(data, "completion_tokens", usage.output);
    CountIs(data, "cache_read_tokens", usage.cacheRead);
    CountIs(data, "cache_creation_tokens", usage.cacheCreate);
  }

  /** The conversion to an integer truncates toward zero. */
  lemma CountIs(data: Data, field: string, n: int)
    ensures IsCount(data, field, n) <==> Int64Field(data, field) == n
  {
  }

  /** Waiting for a human is surfaced as such, or as idle, or not at all; other states as a summary. */
  lemma StateEntry(cfg: Config, b: Bridging, data: Data, state: Text)
    requires Reports(cfg, b, "state_change", data) && IsText(data, "state", state)
    ensures BridgedBy(cfg, b) ==
      if state != Ascii("awaiting_human") then Some((Sent(cfg, b, "system", Summary(cfg, data), [], [], None), false))
      else if cfg.surfaceAwaitingHuman then Some((Sent(cfg, b, "system", Ascii("awaiting human input"), [], [], None), true))
      else if cfg.surfaceRunState then Some((Sent(cfg, b, "status", Ascii("idle"), [], [], None), false))
      else None
  {
  }

  /** The marshalled data, cut to 200 bytes; nothing for no data or data that cannot be marshalled. */
  ghost function Summary(cfg: Config, data: Data): Text {
    if data != map[] && cfg.marshal(data).Some? then Truncated(cfg.marshal(data).value, 200) else []
  }

  lemma ContextLimitEntry(cfg: Config, b: Bridging, data: Data)
    requires Reports(cfg, b, "context_limit", data)
    ensures BridgedBy(cfg, b) == Some((Sent(cfg, b, "system", Summary(cfg, data), [], [], None), false))
  {
  }

  /** An error is a stderr entry, with the suspected upstream defect if there is one. */
  lemma ErrorEntry(cfg: Config, b: Bridging, data: Data, error: Text, defect: Text)
    requires Reports(cfg, b, "error", data) && IsText(data, "error", error) && IsText(data, "suspected_upstream_defect", defect)
    ensures
      var content := if defect == [] then error else error + Ascii(" (suspected upstream defect: ") + defect + Ascii(")");
      BridgedBy(cfg, b) == Some((Sent(cfg, b, "stderr", content, [], [], None), false))
  {
  }

  lemma WorkingEntry(cfg: Config, b: Bridging, kind: string, data: Data)
    requires Reports(cfg, b, kind, data) && (kind == "model_request" || kind == "user_input")
    ensures BridgedBy(cfg, b) ==
      if cfg.surfaceRunState then Some((Sent(cfg, b, "status", Ascii("working"), [], [], None), false)) else None
  {
  }

  /** Kinds that stay in the transcript are not published. */
  lemma TranscriptOnly(cfg: Config, b: Bridging, kind: string, data: Data)
    requires Reports(cfg, b, kind, data) && kind in {"tool_result", "tool_repair", "verification"}
    ensures BridgedBy(cfg, b) == None
  {
  }

  /** Any other kind is what MapExtra makes of it, masked and stamped, and nothing without one. */
  lemma ExtraEntry(cfg: Config, b: Bridging, kind: string, data: Data)
    requires Reports(cfg, b, kind, data) && !Known(kind)
    ensures
      match if cfg.mapExtra.Some? then cfg.mapExtra.value(kind, data) else None
      case None => BridgedBy(cfg, b) == None
      case Some((e, awaiting)) =>
        && BridgedBy(cfg, b).Some? && BridgedBy(cfg, b).value.1 == awaiting
        && var out := BridgedBy(cfg, b).value.0;
           && out.kind == e.kind && out.model == e.model && out.toolUseID == e.toolUseID && out.usage == e.usage
           && out.content == (if b.secrets.Some? then cfg.mask(b.secrets.value, e.content) else e.content)
           && Stamped(b.key, b.at, out)
           && (b.key.project == "" ==> out.project == e.project) && (b.key.cardID == "" ==> out.cardID == e.cardID)
           && (b.key.sessionID == "" ==> out.sessionID == e.sessionID)
  {
  }
}
