/** The navigation context: the global key handler (mode switching, focus
    cycling, dispatch to the focused component's key map), the key-map
    registry, and the cyclic selection of the client and the project. */
module Navigation {
  import opened Wrappers
  import opened Ink

  datatype Section = View | Client | Projects | Tasks

  /** The section names of `consts.js`, which also name the components. */
  function Name(s: Section): string {
    match s
    case View => "View"
    case Client => "Client"
    case Projects => "Projects"
    case Tasks => "Tasks"
  }

  datatype Mode = NormalMode | InsertMode

  const SectionOrder: seq<Section> := [View, Client, Projects, Tasks]

  function IndexOf(s: Section): (i: nat)
    ensures i < |SectionOrder| && SectionOrder[i] == s
  {
    match s
    case View => 0
    case Client => 1
    case Projects => 2
    case Tasks => 3
  }

  /** Tab: `sections[(sections.indexOf(focused) + 1) % sections.length]`. */
  function NextSection(s: Section): Section {
    SectionOrder[(IndexOf(s) + 1) % |SectionOrder|]
  }

  /** Tab visits View, Client, Projects and Tasks in turn and comes back
      after four presses. */
  lemma TabCycle(s: Section)
    ensures NextSection(View) == Client && NextSection(Client) == Projects
    ensures NextSection(Projects) == Tasks && NextSection(Tasks) == View
    ensures NextSection(NextSection(NextSection(NextSection(s)))) == s
  {
  }

  /** The section a digit key focuses. */
  function DigitSection(input: string): (r: Option<Section>)
    ensures r.Some? ==> input == [(('0' as int) + IndexOf(r.value)) as char]
  {
    if input == "0" then Some(View)
    else if input == "1" then Some(Client)
    else if input == "2" then Some(Projects)
    else if input == "3" then Some(Tasks)
    else None
  }

  lemma DigitKeys()
    ensures DigitSection("0") == Some(View) && DigitSection("1") == Some(Client)
    ensures DigitSection("2") == Some(Projects) && DigitSection("3") == Some(Tasks)
  {
  }

  /** A row with an id, as clients and projects are listed. */
  datatype Row = Row(id: int, name: string)

  /** The context's state. `handlers` holds, per component id, the keys its
      key map binds; `invoked` records each bound action run, and `exited`
      the call of `exit()`. */
  datatype Nav = Nav(focused: Section, mode: Mode, exited: bool,
                     handlers: map<string, set<string>>, invoked: seq<(string, string)>,
                     clients: seq<Row>, selectedClientId: Option<int>,
                     projects: seq<Row>, selectedProjectId: Option<int>)

  function Initial(): Nav {
    Nav(Client, NormalMode, false, map[], [], [], None, [], None)
  }

  /** The focus after the focus keys of one keystroke: Tab, then a digit. */
  function Refocus(s: Section, k: Key): Section {
    var afterTab := if k.tab then NextSection(s) else s;
    if DigitSection(k.input).Some? then DigitSection(k.input).value else afterTab
  }

  /** Whether the key map of the section focused when the key arrived binds
      the key. */
  predicate Bound(n: Nav, input: string) {
    Name(n.focused) in n.handlers && input in n.handlers[Name(n.focused)]
  }

  /** One keystroke of the global `useInput` handler. The component lookup
      reads the focus of the render the key arrived in, before this key's
      own focus change. */
  function OnKey(n: Nav, k: Key): Nav {
    if k.escape then n.(mode := NormalMode)
    else if k.input == "i" then n.(mode := InsertMode)
    else if n.mode != NormalMode then n
    else
      var n1 := n.(exited := n.exited || k.input == "q", focused := Refocus(n.focused, k));
      if Bound(n, k.input) then n1.(invoked := n.invoked + [(Name(n.focused), k.input)]) else n1
  }

  /** Escape always gives normal mode and `i` insert mode, and nothing else
      changes. */
  lemma ModeKeys(n: Nav, k: Key)
    ensures k.escape ==> OnKey(n, k) == n.(mode := NormalMode)
    ensures !k.escape && k.input == "i" ==> OnKey(n, k) == n.(mode := InsertMode)
  {
  }

  /** In insert mode focus keys and component key maps are ignored. */
  lemma InsertModeIgnoresKeys(n: Nav, k: Key)
    requires n.mode == InsertMode && !k.escape && k.input != "i"
    ensures OnKey(n, k) == n
  {
  }

  /** In normal mode Tab moves the focus one step and a digit picks its
      section; the focused component's action runs exactly for the keys its
      map binds. */
  lemma NormalModeKeys(n: Nav, k: Key)
    requires n.mode == NormalMode && !k.escape && k.input != "i"
    ensures k.tab && DigitSection(k.input).None? ==> OnKey(n, k).focused == NextSection(n.focused)
    ensures DigitSection(k.input).Some? ==> OnKey(n, k).focused == DigitSection(k.input).value
    ensures OnKey(n, k).invoked == if Bound(n, k.input) then n.invoked + [(Name(n.focused), k.input)] else n.invoked
    ensures OnKey(n, k).exited <==> n.exited || k.input == "q"
  {
  }

  /** After unregistering, a component's actions no longer run. */
  lemma UnregisteredNotInvoked(n: Nav, k: Key)
    requires Name(n.focused) !in n.handlers
    ensures OnKey(n, k).invoked == n.invoked
  {
  }

  // --------------------------------------------------------------- selection

  /** `rows.findIndex(r => r.id === id)`: the first match, or -1. */
  function FindIndex(rows: seq<Row>, id: Option<int>): (i: int)
    ensures -1 <= i < |rows|
    ensures i >= 0 ==> id == Some(rows[i].id) && forall j :: 0 <= j < i ==> id != Some(rows[j].id)
    ensures i == -1 ==> forall j :: 0 <= j < |rows| ==> id != Some(rows[j].id)
  {
    if rows == [] then -1
    else if id == Some(rows[0].id) then 0
    else
      var i := FindIndex(rows[1..], id);
      if i == -1 then -1 else i + 1
  }

  /** `rows.find(r => r.id === id) || null`. */
  function Find(rows: seq<Row>, id: Option<int>): (r: Option<Row>)
    ensures r.Some? <==> exists j :: 0 <= j < |rows| && id == Some(rows[j].id)
    ensures r.Some? ==> r.value in rows && Some(r.value.id) == id
  {
    var i := FindIndex(rows, id);
    if i == -1 then None else Some(rows[i])
  }

  /** The id `selectNext…` selects: the next row, or the first when the
      current one is last or not found; unchanged for an empty list. */
  function SelectNext(rows: seq<Row>, id: Option<int>): Option<int> {
    var current := FindIndex(rows, id);
    var next := if current < |rows| - 1 then current + 1 else 0;
    if 0 <= next < |rows| then Some(rows[next].id) else id
  }

  /** The id `selectPrevious…` selects: the previous row, or the last when
      the current one is first or not found; unchanged for an empty list. */
  function SelectPrevious(rows: seq<Row>, id: Option<int>): Option<int> {
    var current := FindIndex(rows, id);
    var prev := if current > 0 then current - 1 else |rows| - 1;
    if 0 <= prev < |rows| then Some(rows[prev].id) else id
  }

  lemma SelectNextSpec(rows: seq<Row>, id: Option<int>)
    ensures rows == [] ==> SelectNext(rows, id) == id
    ensures var i := FindIndex(rows, id);
      0 <= i < |rows| - 1 ==> SelectNext(rows, id) == Some(rows[i + 1].id)
    ensures var i := FindIndex(rows, id);
      rows != [] && (i == -1 || i == |rows| - 1) ==> SelectNext(rows, id) == Some(rows[0].id)
  {
  }

  lemma SelectPreviousSpec(rows: seq<Row>, id: Option<int>)
    ensures rows == [] ==> SelectPrevious(rows, id) == id
    ensures var i := FindIndex(rows, id);
      i > 0 ==> SelectPrevious(rows, id) == Some(rows[i - 1].id)
    ensures var i := FindIndex(rows, id);
      rows != [] && i <= 0 ==> SelectPrevious(rows, id) == Some(rows[|rows| - 1].id)
  {
  }

  /** With distinct ids, stepping forward then back returns to a selected
      row. */
  lemma {:induction false} NextThenPrevious(rows: seq<Row>, i: nat)
    requires i < |rows|
    requires forall a, b :: 0 <= a < b < |rows| ==> rows[a].id != rows[b].id
    ensures SelectPrevious(rows, SelectNext(rows, Some(rows[i].id))) == Some(rows[i].id)
  {
    assert FindIndex(rows, Some(rows[i].id)) == i;
    var j := if i < |rows| - 1 then i + 1 else 0;
    assert FindIndex(rows, Some(rows[j].id)) == j;
  }

  /** The state holder: every field is React state, `handlers` the ref'd
      map. */
  class NavigationProvider {
    var focused: Section
    var mode: Mode
    var exited: bool
    var handlers: map<string, set<string>>
    var invoked: seq<(string, string)>
    var clients: seq<Row>
    var selectedClientId: Option<int>
    var projects: seq<Row>
    var selectedProjectId: Option<int>

    function State(): Nav
      reads this
    {
      Nav(focused, mode, exited, handlers, invoked, clients, selectedClientId, projects, selectedProjectId)
    }

    constructor ()
      ensures State() == Initial()
    {
      focused, mode, exited, handlers, invoked := Client, NormalMode, false, map[], [];
      clients, selectedClientId, projects, selectedProjectId := [], None, [], None;
    }

    method HandleKey(k: Key)
      modifies this
      ensures State() == OnKey(old(State()), k)
    {
      if k.escape {
        mode := NormalMode;
        return;
      }
      if k.input == "i" {
        mode := InsertMode;
        return;
      }
      if k.input == "q" && mode == NormalMode {
        exited := true;
      }
      if mode != NormalMode {
        return;
      }
      var section := focused;
      focused := FocusAfter(section, k);
      var id := Name(section);
      if id in handlers && k.input in handlers[id] {
        invoked := invoked + [(id, k.input)];
      }
    }

    /** Tab moves to the next section, and a digit then jumps to its own. */
    static method FocusAfter(section: Section, k: Key) returns (r: Section)
      ensures r == Refocus(section, k)
    {
      r := section;
      if k.tab {
        var currentIndex := IndexOf(section);
        r := SectionOrder[(currentIndex + 1) % |SectionOrder|];
      }
      if k.input == "0" {
        r := View;
      }
      if k.input == "1" {
        r := Client;
      }
      if k.input == "2" {
        r := Projects;
      }
      if k.input == "3" {
        r := Tasks;
      }
    }

    method RegisterKeyHandler(componentId: string, keys: set<string>)
      modifies this
      ensures State() == old(State()).(handlers := old(handlers)[componentId := keys])
    {
      handlers := handlers[componentId := keys];
    }

    method UnregisterKeyHandler(componentId: string)
      modifies this
      ensures State() == old(State()).(handlers := old(handlers) - {componentId})
      ensures componentId !in handlers
    {
      handlers := handlers - {componentId};
    }

    method SelectNextClient()
      modifies this
      ensures State() == old(State()).(selectedClientId := SelectNext(old(clients), old(selectedClientId)))
    {
      var currentIndex := FindIndex(clients, selectedClientId);
      var nextIndex := if currentIndex < |clients| - 1 then currentIndex + 1 else 0;
      if 0 <= nextIndex < |clients| {
        selectedClientId := Some(clients[nextIndex].id);
      }
    }

    method SelectPreviousClient()
      modifies this
      ensures State() == old(State()).(selectedClientId := SelectPrevious(old(clients), old(selectedClientId)))
    {
      var currentIndex := FindIndex(clients, selectedClientId);
      var prevIndex := if currentIndex > 0 then currentIndex - 1 else |clients| - 1;
      if 0 <= prevIndex < |clients| {
        selectedClientId := Some(clients[prevIndex].id);
      }
    }

    method SelectNextProject()
      modifies this
      ensures State() == old(State()).(selectedProjectId := SelectNext(old(projects), old(selectedProjectId)))
    {
      var currentIndex := FindIndex(projects, selectedProjectId);
      var nextIndex := if currentIndex < |projects| - 1 then currentIndex + 1 else 0;
      if 0 <= nextIndex < |projects| {
        selectedProjectId := Some(projects[nextIndex].id);
      }
    }

    method SelectPreviousProject()
      modifies this
      ensures State() == old(State()).(selectedProjectId := SelectPrevious(old(projects), old(selectedProjectId)))
    {
      var currentIndex := FindIndex(projects, selectedProjectId);
      var prevIndex := if currentIndex > 0 then currentIndex - 1 else |projects| - 1;
      if 0 <= prevIndex < |projects| {
        selectedProjectId := Some(projects[prevIndex].id);
      }
    }

    function SelectedClient(): (r: Option<Row>)
      reads this
      ensures r.Some? ==> r.value in clients && Some(r.value.id) == selectedClientId
    {
      Find(clients, selectedClientId)
    }

    function SelectedProject(): (r: Option<Row>)
      reads this
      ensures r.Some? ==> r.value in projects && Some(r.value.id) == selectedProjectId
    {
      Find(projects, selectedProjectId)
    }
  }
}
