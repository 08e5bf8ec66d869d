/** Clients of the hub: control messages, resyncs, ticks and disconnects, interleaved
    (server/websocket.go, server/rawstream.go).

    Each connection is served by the hub's goroutine and by two goroutines of its own. A step below is one
    critical section or channel operation; any order in which they are enabled may happen. */
module Hub {
  import opened GraphState

  const SEND_BUFFER := 256

  // ---- control messages ----

  datatype ViewConfig = ViewConfig(
    hidden: set<string>, layout: string, expanded: set<string>, fullExpand: set<string>, focus: string, zoom: string,
    threshold: int, raw: bool, maxNodes: int, maxEdges: int, budget: int)

  datatype Timeline = Live | Timeline(capture: int, t: int, window: int)

  datatype Control =
    | SetFilters(hidden: set<string>)
    | SetLayout(mode: string)
    | SetAggregation(expanded: set<string>, fullExpand: set<string>, focus: string, zoom: string, threshold: int)
    | Resync
    | SetTimeline(capture: int, t: int, window: int)
    | SetViewMode(mode: string)
    | Malformed

  const ZOOM_BANDS := {"far", "mid", "near", ""}

  function Window(w: int): int { if w <= 0 then 60 else w }

  function Configured(cfg: ViewConfig, m: Control): ViewConfig {
    match m
    case SetFilters(hidden) => cfg.(hidden := hidden)
    case SetLayout(mode) => if mode == "" then cfg else cfg.(layout := mode)
    case SetAggregation(expanded, fullExpand, focus, zoom, threshold) =>
      cfg.(expanded := expanded, fullExpand := fullExpand, focus := focus, threshold := threshold,
        zoom := if zoom in ZOOM_BANDS then zoom else cfg.zoom)
    case SetViewMode(mode) => cfg.(raw := mode == "raw")
    case _ => cfg
  }

  function Scrubbed(tl: Timeline, m: Control): Timeline {
    if !m.SetTimeline? then tl else if m.capture == 0 then Live else Timeline(m.capture, m.t, Window(m.window))
  }

  /** Does this message ask for a full view? */
  predicate Asks(cfg: ViewConfig, tl: Timeline, m: Control) {
    match m
    case SetFilters(_) => true
    case SetLayout(mode) => mode != ""
    case SetAggregation(_, _, _, _, _) => true
    case Resync => true
    case SetTimeline(capture, _, _) => if capture == 0 then tl != Live else tl == Live || tl.capture != capture
    case SetViewMode(mode) => (mode == "raw") != cfg.raw
    case Malformed => false
  }

  /** Nothing that changes what a client should see, but for the position of its scrubber, goes without a full view. */
  lemma ChangesAskForFull(cfg: ViewConfig, tl: Timeline, m: Control)
    ensures Configured(cfg, m) != cfg ==> Asks(cfg, tl, m)
    ensures Scrubbed(tl, m) != tl && !Asks(cfg, tl, m) ==>
      tl.Timeline? && Scrubbed(tl, m).Timeline? && tl.capture == Scrubbed(tl, m).capture
  {
  }

  /** The part of a client guarded by its mutex. */
  class ClientConfig {
    var cfg: ViewConfig
    var needsFull: bool
    var timeline: Timeline

    constructor (cfg: ViewConfig)
      ensures this.cfg == cfg && needsFull && timeline == Live
    {
      this.cfg, needsFull, timeline := cfg, true, Live;
    }

    method ApplyControl(m: Control)
      modifies this
      ensures cfg == Configured(old(cfg), m) && timeline == Scrubbed(old(timeline), m)
      ensures needsFull == (old(needsFull) || Asks(old(cfg), old(timeline), m))
      ensures cfg.hidden == (if m.SetFilters? then m.hidden else old(cfg.hidden))
      ensures cfg.layout == (if m.SetLayout? && m.mode != "" then m.mode else old(cfg.layout))
      ensures cfg.expanded == (if m.SetAggregation? then m.expanded else old(cfg.expanded))
      ensures cfg.fullExpand == (if m.SetAggregation? then m.fullExpand else old(cfg.fullExpand))
      ensures cfg.focus == (if m.SetAggregation? then m.focus else old(cfg.focus))
      ensures cfg.threshold == (if m.SetAggregation? then m.threshold else old(cfg.threshold))
      ensures cfg.zoom == (if m.SetAggregation? && m.zoom in {"far", "mid", "near", ""} then m.zoom else old(cfg.zoom))
      ensures cfg.raw == (if m.SetViewMode? then m.mode == "raw" else old(cfg.raw))
      ensures cfg.maxNodes == old(cfg.maxNodes) && cfg.maxEdges == old(cfg.maxEdges) && cfg.budget == old(cfg.budget)
      ensures !m.SetTimeline? ==> timeline == old(timeline)
      ensures m.SetTimeline? && m.capture == 0 ==> timeline == Live
      ensures m.SetTimeline? && m.capture != 0 ==>
        timeline == Timeline(m.capture, m.t, if m.window <= 0 then 60 else m.window)
      ensures m.Resync? || m.SetFilters? || m.SetAggregation? || old(needsFull) ==> needsFull
    {
      match m
      case SetFilters(hidden) =>
        cfg := cfg.(hidden := hidden);
        needsFull := true;
      case SetLayout(mode) =>
        if mode == "" { return; }
        cfg := cfg.(layout := mode);
        needsFull := true;
      case SetAggregation(expanded, fullExpand, focus, zoom, threshold) =>
        cfg := cfg.(expanded := expanded, fullExpand := fullExpand, focus := focus);
        if zoom in ZOOM_BANDS { cfg := cfg.(zoom := zoom); }
        cfg := cfg.(threshold := threshold);
        needsFull := true;
      case Resync =>
        needsFull := true;
      case SetTimeline(capture, t, window) =>
        if capture == 0 {
          if timeline != Live {
            timeline := Live;
            needsFull := true;
          }
          return;
        }
        var win := window;
        if win <= 0 { win := 60; }
        if timeline == Live || timeline.capture != capture {
          timeline := Timeline(capture, 0, 0);
          needsFull := true;
        }
        timeline := timeline.(t := t, window := win);
      case SetViewMode(mode) =>
        var raw := mode == "raw";
        if raw != cfg.raw {
          cfg := cfg.(raw := raw);
          needsFull := true;
        }
      case Malformed =>
    }

    method ConsumeNeedsFull() returns (full: bool)
      modifies this`needsFull
      ensures full == old(needsFull) && !needsFull
    {
      full := needsFull;
      needsFull := false;
    }
  }

  // ---- ticks that run ----

  const LARGE_GRAPH_NODES := 20000
  const VIEW_REBUILD_EVERY_LARGE := 5

  /** Does a timer tick get as far as building views? */
  predicate TickBuilds(clients: nat, dirty: bool, anyNeedsFull: bool, layoutBusy: bool, timelineDirty: bool,
                       nodeCount: nat, tickSeq: nat) {
    && clients != 0
    && (dirty || anyNeedsFull || layoutBusy || timelineDirty)
    && !(dirty && !anyNeedsFull && !layoutBusy && !timelineDirty && nodeCount > LARGE_GRAPH_NODES
      && tickSeq % VIEW_REBUILD_EVERY_LARGE != 0)
  }

  lemma RequestsAreNeverSkipped(clients: nat, dirty: bool, layoutBusy: bool, timelineDirty: bool, nodeCount: nat,
                                tickSeq: nat)
    requires clients != 0
    ensures TickBuilds(clients, dirty, true, layoutBusy, timelineDirty, nodeCount, tickSeq)
  {
  }

  // ---- the hub as a state machine ----

  /** A connection. `version` counts control messages applied; `requested` is the version that the newest request
      for a full view must see, `covered` the oldest version that the newest full view was built from. */
  datatype Conn = Conn(cfg: ViewConfig, timeline: Timeline, version: int, needsFull: bool, requested: int, covered: int,
                       registered: bool, open: bool, closes: int, buffered: int)

  /** Where the hub's goroutine is. `todo` are the clients this tick has yet to visit. */
  datatype Phase =
    | Idle
    | Visiting(todo: set<int>)
    | Consumed(todo: set<int>, id: int, full: bool)
    | Configuring(todo: set<int>, id: int, full: bool, version: int)
    | Sending(todo: set<int>, id: int, left: nat)

  datatype World = World(conns: map<int, Conn>, clients: set<int>, phase: Phase)

  datatype Step =
    | Connect(id: int, cfg: ViewConfig)
    | Register(id: int)
    | Unregister(id: int)
    | Receive(id: int, message: Control)    // the connection's reader, at any time
    | Drain(id: int)                        // the connection's writer, at any time
    | ResyncAll
    | Begin                                 // a tick that builds
    | Visit(id: int)                        // takes needsFull
    | Configure                             // first look at the configuration
    | Build(messages: nat)                  // whose view it may share, see ViewCache
    | Send
    | Leave
    | End

  const START := World(map[], {}, Idle)

  predicate Enabled(w: World, s: Step) {
    match s
    case Connect(id, _) => id !in w.conns
    case Register(id) => w.phase.Idle? && id in w.conns && !w.conns[id].registered
    case Unregister(id) => w.phase.Idle? && id in w.conns && w.conns[id].registered
    case Receive(id, _) => id in w.conns && w.conns[id].registered
    case Drain(id) => id in w.conns && w.conns[id].buffered > 0
    case ResyncAll => w.phase.Idle?
    case Begin => w.phase.Idle?
    case Visit(id) => w.phase.Visiting? && id in w.phase.todo && id in w.conns
    case Configure => w.phase.Consumed? && w.phase.id in w.conns
    case Build(_) => w.phase.Configuring? && w.phase.id in w.conns
    case Send => w.phase.Sending? && w.phase.left > 0 && w.phase.id in w.conns
    case Leave => w.phase.Sending? && w.phase.left == 0
    case End => w.phase.Visiting? && w.phase.todo == {}
  }

  function Controlled(c: Conn, m: Control): Conn {
    c.(cfg := Configured(c.cfg, m), timeline := Scrubbed(c.timeline, m), version := c.version + 1,
       needsFull := c.needsFull || Asks(c.cfg, c.timeline, m),
       requested := if Asks(c.cfg, c.timeline, m) then c.version + 1 else c.requested)
  }

  function Closed(c: Conn): Conn { c.(open := false, closes := c.closes + 1) }

  function Asked(c: Conn): Conn { c.(needsFull := true, requested := c.version) }

  function Next(w: World, s: Step): World
    requires Enabled(w, s)
  {
    match s
    case Connect(id, cfg) => w.(conns := w.conns[id := Conn(cfg, Live, 0, true, 0, -1, false, true, 0, 0)])
    case Register(id) => w.(conns := w.conns[id := w.conns[id].(registered := true)], clients := w.clients + {id})
    case Unregister(id) =>
      if id in w.clients then w.(conns := w.conns[id := Closed(w.conns[id])], clients := w.clients - {id}) else w
    case Receive(id, m) => w.(conns := w.conns[id := Controlled(w.conns[id], m)])
    case Drain(id) => w.(conns := w.conns[id := w.conns[id].(buffered := w.conns[id].buffered - 1)])
    case ResyncAll => w.(conns := map id | id in w.conns :: if id in w.clients then Asked(w.conns[id]) else w.conns[id])
    case Begin => w.(phase := Visiting(w.clients))
    case Visit(id) =>
      w.(conns := w.conns[id := w.conns[id].(needsFull := false)],
        phase := Consumed(w.phase.todo - {id}, id, w.conns[id].needsFull))
    case Configure => w.(phase := Configuring(w.phase.todo, w.phase.id, w.phase.full, w.conns[w.phase.id].version))
    case Build(messages) =>
      var c := w.conns[w.phase.id];
      w.(conns := w.conns[w.phase.id := if w.phase.full then c.(covered := w.phase.version) else c],
        phase := Sending(w.phase.todo, w.phase.id, messages))
    case Send =>
      var c := w.conns[w.phase.id];
      if c.buffered < SEND_BUFFER then
        w.(conns := w.conns[w.phase.id := c.(buffered := c.buffered + 1)], phase := w.phase.(left := w.phase.left - 1))
      else
        w.(conns := w.conns[w.phase.id := Closed(c)], clients := w.clients - {w.phase.id},
          phase := Visiting(w.phase.todo))
    case Leave => w.(phase := Visiting(w.phase.todo))
    case End => w.(phase := Idle)
  }

  // ---- what every step keeps ----

  /** A registered client is in the hub's map exactly as long as its channel is open, and a channel closes once. */
  ghost predicate ChannelOk(w: World, id: int)
    requires id in w.conns
  {
    var c := w.conns[id];
    && (c.registered ==> (id in w.clients <==> c.open))
    && (!c.registered ==> c.open && id !in w.clients)
    && c.closes == (if c.open then 0 else 1)
    && 0 <= c.buffered <= SEND_BUFFER
  }

  /** The tick is still to build this client a full view, from a configuration no older than `version`. */
  ghost predicate Underway(w: World, id: int, version: int) {
    || (w.phase.Consumed? && w.phase.id == id && w.phase.full)
    || (w.phase.Configuring? && w.phase.id == id && w.phase.full && w.phase.version >= version)
  }

  /** No request is lost: it is still flagged, its full view is underway, or it has been built. */
  ghost predicate RequestOk(w: World, id: int)
    requires id in w.conns
  {
    var c := w.conns[id];
    && c.requested <= c.version && c.covered <= c.version
    && (w.phase.Configuring? && w.phase.id == id ==> c.covered <= w.phase.version <= c.version)
    && (c.needsFull || Underway(w, id, c.requested) || c.covered >= c.requested)
  }

  ghost predicate PhaseOk(w: World) {
    && (!w.phase.Idle? ==> w.phase.todo <= w.clients)
    && (w.phase.Consumed? || w.phase.Configuring? || w.phase.Sending? ==>
      w.phase.id in w.clients && w.phase.id !in w.phase.todo)
  }

  ghost predicate Consistent(w: World) {
    && w.clients <= w.conns.Keys
    && (forall id {:trigger id in w.conns} :: id in w.conns ==> ChannelOk(w, id) && RequestOk(w, id))
    && PhaseOk(w)
  }

  lemma StepKeeps(w: World, s: Step)
    requires Consistent(w) && Enabled(w, s)
    ensures Consistent(Next(w, s))
  {
    var v := Next(w, s);
    PhaseStays(w, s);
    forall id | id in v.conns ensures ChannelOk(v, id) && RequestOk(v, id) {
      ChannelStays(w, s, id);
      RequestStays(w, s, id);
    }
    hide Next, Enabled;
  }

  lemma PhaseStays(w: World, s: Step)
    requires Consistent(w) && Enabled(w, s)
    ensures PhaseOk(Next(w, s)) && Next(w, s).clients <= Next(w, s).conns.Keys
  {
    hide Configured, Scrubbed, Asks, ChannelOk, RequestOk, Controlled, Closed, Asked;
  }

  lemma ChannelStays(w: World, s: Step, id: int)
    requires Consistent(w) && Enabled(w, s) && id in Next(w, s).conns
    ensures ChannelOk(Next(w, s), id)
  {
    hide Configured, Scrubbed, Asks, RequestOk;
    if id in w.conns { assert ChannelOk(w, id); }
  }

  lemma RequestStays(w: World, s: Step, id: int)
    requires Consistent(w) && Enabled(w, s) && id in Next(w, s).conns
    ensures RequestOk(Next(w, s), id)
  {
    hide Configured, Scrubbed, Asks, ChannelOk;
    if id in w.conns { assert RequestOk(w, id); }
  }

  function After(w: World, steps: seq<Step>): Option<World> {
    if steps == [] then Some(w)
    else
      match After(w, steps[..|steps| - 1])
      case Some(v) => if Enabled(v, steps[|steps| - 1]) then Some(Next(v, steps[|steps| - 1])) else None
      case None => None
  }

  lemma {:induction false} RunsAreConsistent(w: World, steps: seq<Step>)
    requires Consistent(w) && After(w, steps).Some?
    ensures Consistent(After(w, steps).value)
  {
    hide Consistent, Enabled, Next;
    if steps != [] {
      RunsAreConsistent(w, steps[..|steps| - 1]);
      StepKeeps(After(w, steps[..|steps| - 1]).value, steps[|steps| - 1]);
    }
  }

  /** Whatever happens next is safe for the channels: nothing is sent on, and nothing closes, a closed one. */
  ghost predicate SafeStep(w: World, s: Step)
    requires Enabled(w, s)
  {
    && (s.Send? ==> w.conns[w.phase.id].open)
    && (forall id {:trigger id in w.conns} :: id in w.conns && Next(w, s).conns[id].closes > w.conns[id].closes ==>
      w.conns[id].open)
  }

  /** In every run from the start: each channel is closed at most once, and never sent on afterwards; a registered
      client is in the map exactly as long as its channel is open. */
  lemma NoSendAfterClose(steps: seq<Step>, s: Step)
    requires After(START, steps).Some? && Enabled(After(START, steps).value, s)
    ensures var w := After(START, steps).value;
      && SafeStep(w, s)
      && forall id :: id in w.conns ==>
        w.conns[id].closes <= 1 && (w.conns[id].registered ==> (id in w.clients <==> w.conns[id].open))
  {
    RunsAreConsistent(START, steps);
    var w := After(START, steps).value;
    forall id | id in w.conns
      ensures w.conns[id].closes <= 1 && (w.conns[id].registered ==> (id in w.clients <==> w.conns[id].open))
      ensures Next(w, s).conns[id].closes > w.conns[id].closes ==> w.conns[id].open
    {
      assert ChannelOk(w, id);
    }
  }

  // ---- one whole tick ----

  predicate WithinTick(s: Step) {
    s.Connect? || s.Receive? || s.Drain? || s.Visit? || s.Configure? || s.Build? || s.Send? || s.Leave?
  }

  /** How far a tick that began in `from` has served the requests made before it. */
  ghost predicate ServedSoFar(from: World, w: World) {
    && !w.phase.Idle? && w.clients <= from.clients && w.clients <= w.conns.Keys && from.conns.Keys <= w.conns.Keys
    && forall id {:trigger id in w.clients} :: id in w.clients && id in from.conns ==>
         && w.conns[id].requested >= from.conns[id].requested
         && (id in w.phase.todo || Underway(w, id, from.conns[id].requested)
           || w.conns[id].covered >= from.conns[id].requested)
  }

  lemma TickServes(from: World, w: World, s: Step)
    requires Consistent(w) && ServedSoFar(from, w) && WithinTick(s) && Enabled(w, s)
    ensures ServedSoFar(from, Next(w, s))
  {
    hide Configured, Scrubbed, Asks, ChannelOk;
    var v := Next(w, s);
    forall id | id in v.clients && id in from.conns
      ensures v.conns[id].requested >= from.conns[id].requested
      ensures id in v.phase.todo || Underway(v, id, from.conns[id].requested)
        || v.conns[id].covered >= from.conns[id].requested
    {
      assert RequestOk(w, id);
    }
  }

  lemma {:induction false} TickServesAll(from: World, steps: seq<Step>)
    requires Consistent(from) && from.phase.Idle?
    requires forall i :: 0 <= i < |steps| ==> WithinTick(steps[i])
    requires After(from, [Begin] + steps).Some?
    ensures Consistent(After(from, [Begin] + steps).value) && ServedSoFar(from, After(from, [Begin] + steps).value)
  {
    hide Consistent, Enabled, Next, WithinTick, ServedSoFar;
    var all := [Begin] + steps;
    if steps == [] {
      assert all == [Begin] && all[..0] == [];
      StepKeeps(from, Begin);
      TickBegins(from);
    } else {
      assert all[..|all| - 1] == [Begin] + steps[..|steps| - 1];
      TickServesAll(from, steps[..|steps| - 1]);
      var w := After(from, all[..|all| - 1]).value;
      StepKeeps(w, steps[|steps| - 1]);
      TickServes(from, w, steps[|steps| - 1]);
    }
  }

  lemma TickBegins(from: World)
    requires Consistent(from) && from.phase.Idle?
    ensures Enabled(from, Begin) && ServedSoFar(from, Next(from, Begin))
  {
  }

  /** A complete tick, whatever control messages arrive meanwhile: every client still connected when it ends has
      had each full view it had asked for before the tick began, built from a configuration at least as new. */
  lemma ATickServesEveryRequest(steps: seq<Step>, tick: seq<Step>)
    requires After(START, steps).Some? && After(START, steps).value.phase.Idle?
    requires forall i :: 0 <= i < |tick| ==> WithinTick(tick[i])
    requires After(After(START, steps).value, [Begin] + tick).Some?
    requires Enabled(After(After(START, steps).value, [Begin] + tick).value, End)
    ensures var from := After(START, steps).value;
      var w := Next(After(from, [Begin] + tick).value, End);
      forall id :: id in w.clients && id in from.conns ==>
        id in w.conns && w.conns[id].covered >= from.conns[id].requested
  {
    hide ChannelOk, RequestOk, Configured, Scrubbed, Asks;
    RunsAreConsistent(START, steps);
    TickServesAll(After(START, steps).value, tick);
  }
}
