/** Routing specifications (rodeo-cli/src/shared/target.rs). */
module Route {
  import opened Options

  datatype Mode = EditMode | RunMode | TestMode | PlayMode
  datatype Kind = EditDom | ServerDom | ClientDom
  datatype Context = Plugin | Elevated | Server | Client | Cmdbar

  /** What the caller said. */
  datatype Spec = Spec(mode: Option<Mode>, kind: Option<Kind>, context: Option<Context>)

  datatype Resolved = Resolved(mode: Mode, kind: Kind, context: Context)

  predicate IsEmpty(s: Spec) {
    s.mode.None? && s.kind.None? && s.context.None?
  }

  function ModeName(m: Mode): string {
    match m
    case EditMode => "edit"
    case RunMode => "run"
    case TestMode => "test"
    case PlayMode => "play"
  }

  function KindName(k: Kind): string {
    match k
    case EditDom => "edit"
    case ServerDom => "server"
    case ClientDom => "client"
  }

  function DefaultKind(mode: Mode, context: Option<Context>): Kind {
    match context
    case Some(Server) => ServerDom
    case Some(Client) => ClientDom
    case Some(Cmdbar) => EditDom
    case _ => if mode == EditMode then EditDom else ServerDom
  }

  function NativeContext(kind: Kind): Context {
    match kind
    case EditDom => Plugin
    case ServerDom => Server
    case ClientDom => Client
  }

  predicate ModeHas(mode: Mode, kind: Kind) {
    match mode
    case EditMode => kind == EditDom
    case RunMode => kind != ClientDom
    case _ => true
  }

  predicate KindHosts(kind: Kind, context: Context) {
    match kind
    case EditDom => context in {Plugin, Elevated, Cmdbar}
    case ServerDom => context in {Server, Plugin, Elevated}
    case ClientDom => context in {Client, Plugin, Elevated}
  }

  /** Defaults, then validity; None is an invalid combination. */
  function Resolve(s: Spec): Option<Resolved> {
    var mode := if s.mode.Some? then s.mode.value else EditMode;
    var kind := if s.kind.Some? then s.kind.value else DefaultKind(mode, s.context);
    var context := if s.context.Some? then s.context.value else NativeContext(kind);
    if ModeHas(mode, kind) && KindHosts(kind, context) then Some(Resolved(mode, kind, context)) else None
  }
}
