/** The seven listener categories of a watcher, their names as strings, and
    the shapes that record a registered listener and one invocation of it. */
module Events {
  import opened Wrappers

  datatype EventType =
    | VisibilityChange
    | EnterViewport
    | FullyEnterViewport
    | ExitViewport
    | PartiallyExitViewport
    | LocationChange
    | StateChange

  /** The stable string a caller passes to `on`/`off` for a category. */
  function EventName(e: EventType): string {
    match e
    case VisibilityChange => "visibilityChange"
    case EnterViewport => "enterViewport"
    case FullyEnterViewport => "fullyEnterViewport"
    case ExitViewport => "exitViewport"
    case PartiallyExitViewport => "partiallyExitViewport"
    case LocationChange => "locationChange"
    case StateChange => "stateChange"
  }

  /** Looks a category up by name; `None` for every string that is not one
      of the seven names. */
  function ParseEvent(name: string): (r: Option<EventType>)
    ensures r.Some? ==> EventName(r.value) == name
    ensures r.None? <==> forall e: EventType :: EventName(e) != name
  {
    if name == "visibilityChange" then Some(VisibilityChange)
    else if name == "enterViewport" then Some(EnterViewport)
    else if name == "fullyEnterViewport" then Some(FullyEnterViewport)
    else if name == "exitViewport" then Some(ExitViewport)
    else if name == "partiallyExitViewport" then Some(PartiallyExitViewport)
    else if name == "locationChange" then Some(LocationChange)
    else if name == "stateChange" then Some(StateChange)
    else None
  }

  /** Every category's name parses back to that category. */
  lemma ParseEventName(e: EventType)
    ensures ParseEvent(EventName(e)) == Some(e)
  {
  }

  /** Callbacks are compared by identity; an id stands for one function value. */
  type CallbackId = nat

  /** One entry of a category's list: the callback and whether it is
      removed after its first invocation. */
  datatype Listener = Listener(callback: CallbackId, isOne: bool)

  /** One call of a callback, on behalf of a category. */
  datatype Invocation = Invocation(event: EventType, callback: CallbackId)

  /** The listener lists of one watcher, one per category; a watcher
      creates all seven and never adds or removes a category. */
  datatype Lists = Lists(
    visibilityChange: seq<Listener>,
    enterViewport: seq<Listener>,
    fullyEnterViewport: seq<Listener>,
    exitViewport: seq<Listener>,
    partiallyExitViewport: seq<Listener>,
    locationChange: seq<Listener>,
    stateChange: seq<Listener>)
  {
    /** The list of category `e`. */
    function Get(e: EventType): seq<Listener> {
      match e
      case VisibilityChange => visibilityChange
      case EnterViewport => enterViewport
      case FullyEnterViewport => fullyEnterViewport
      case ExitViewport => exitViewport
      case PartiallyExitViewport => partiallyExitViewport
      case LocationChange => locationChange
      case StateChange => stateChange
    }

    /** The lists with the list of category `e` replaced by `list`. */
    function Set(e: EventType, list: seq<Listener>): (r: Lists)
      ensures r.Get(e) == list
      ensures forall d: EventType :: d != e ==> r.Get(d) == Get(d)
    {
      match e
      case VisibilityChange => this.(visibilityChange := list)
      case EnterViewport => this.(enterViewport := list)
      case FullyEnterViewport => this.(fullyEnterViewport := list)
      case ExitViewport => this.(exitViewport := list)
      case PartiallyExitViewport => this.(partiallyExitViewport := list)
      case LocationChange => this.(locationChange := list)
      case StateChange => this.(stateChange := list)
    }
  }

  /** Lists that agree on every category are the same lists. */
  lemma ListsExtensional(a: Lists, b: Lists)
    requires forall e: EventType :: a.Get(e) == b.Get(e)
    ensures a == b
  {
    assert a.Get(VisibilityChange) == b.Get(VisibilityChange);
    assert a.Get(EnterViewport) == b.Get(EnterViewport);
    assert a.Get(FullyEnterViewport) == b.Get(FullyEnterViewport);
    assert a.Get(ExitViewport) == b.Get(ExitViewport);
    assert a.Get(PartiallyExitViewport) == b.Get(PartiallyExitViewport);
    assert a.Get(LocationChange) == b.Get(LocationChange);
    assert a.Get(StateChange) == b.Get(StateChange);
  }

  /** The lists a new (or destroyed) watcher holds: all seven empty. */
  function EmptyLists(): (lists: Lists)
    ensures forall e: EventType :: lists.Get(e) == []
  {
    Lists([], [], [], [], [], [], [])
  }
}
