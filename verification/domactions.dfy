/** The page-side action helpers of extensions/actions.js: `doType`, `doClick` and
    `doSelect` over the elements of a document. An element keeps its value and the
    events it received; the document resolves a selector to one of its elements, to
    none, or refuses it. CSS matching itself is the browser's and is a parameter of
    the document. */
module DomActions {
  import opened Wrappers

  /** A JavaScript value as the helpers receive it: `undefined`, `null` or a string. */
  datatype JsValue = Undefined | Null | Str(s: string)

  /** `String(v)`. */
  function JsString(v: JsValue): string {
    match v
    case Undefined => "undefined"
    case Null => "null"
    case Str(s) => s
  }

  /** The text a form control holds after `el.value = v`: `null` becomes the empty
      string, anything else its `String` form. */
  function AssignedValue(v: JsValue): string {
    if v == Null then "" else JsString(v)
  }

  /** JavaScript truthiness of the values above. */
  predicate Truthy(v: JsValue) {
    v.Str? && v.s != ""
  }

  /** What an element receives, in order: focus, an `input` event (with the value the
      element holds when it fires), a `change` event, a click. */
  datatype DomEvent = Focused | Input(value: string) | Change | Clicked

  /** An `<option>`: its value and its text. */
  datatype SelectOption = SelectOption(value: string, text: string)

  /** The changing part of an element: its value and the events it has received. */
  datatype NodeState = NodeState(value: string, events: seq<DomEvent>)

  /** One `input` event per character, each seeing the text typed so far. */
  function Typing(s: string): (es: seq<DomEvent>)
    ensures |es| == |s|
    ensures forall k :: 0 <= k < |s| ==> es[k] == Input(s[..k + 1])
  {
    seq(|s|, k requires 0 <= k < |s| => Input(s[..k + 1]))
  }

  /** An element after `doType` entered `s`. */
  function Typed(n: NodeState, s: string): NodeState {
    NodeState(s, n.events + [Focused] + Typing(s) + [Change])
  }

  /** An element after `doClick`. */
  function ClickedOn(n: NodeState): NodeState {
    NodeState(n.value, n.events + [Focused, Clicked])
  }

  /** An option the argument names, by its value or by its text. */
  predicate Picks(o: SelectOption, v: JsValue) {
    v == Str(o.value) || v == Str(o.text)
  }

  /** `Array.from(el.options).find(...)`: the first option the argument names. */
  function FirstOption(options: seq<SelectOption>, v: JsValue): (r: Option<nat>)
    ensures r.Some? ==> r.value < |options| && Picks(options[r.value], v)
    ensures r.Some? ==> forall k :: 0 <= k < r.value ==> !Picks(options[k], v)
    ensures r.None? <==> forall k :: 0 <= k < |options| ==> !Picks(options[k], v)
  {
    if options == [] then None
    else if Picks(options[0], v) then Some(0)
    else match FirstOption(options[1..], v)
      case None => None
      case Some(k) => Some(k + 1)
  }

  /** An element after `doSelect`, and what the call returns. On a `SELECT` an option
      the argument names is chosen and its value taken; with none, nothing changes.
      Any other element takes the value as it is. */
  function Selected(tagName: string, options: seq<SelectOption>, n: NodeState, v: JsValue): (NodeState, bool) {
    if tagName == "SELECT" then
      match FirstOption(options, v)
      case None => (n, false)
      case Some(k) => (NodeState(options[k].value, n.events + [Input(options[k].value), Change]), true)
    else
      (NodeState(AssignedValue(v), n.events + [Focused, Input(AssignedValue(v)), Change]), true)
  }

  /** How `document.querySelector` resolves a selector: it throws on one it cannot
      parse, returns null when nothing matches, or returns an element. */
  datatype Lookup = BadSelector | NoMatch | Match(index: nat)

  class Element {
    const tagName: string
    const options: seq<SelectOption>
    var value: string
    var events: seq<DomEvent>

    constructor (tagName: string, options: seq<SelectOption>, value: string)
      ensures this.tagName == tagName && this.options == options
      ensures this.value == value && events == []
    {
      this.tagName := tagName;
      this.options := options;
      this.value := value;
      events := [];
    }

    function State(): NodeState
      reads this
    {
      NodeState(value, events)
    }
  }

  /** A page: its elements, how selectors resolve against them, and the messages its
      window showed with `alert`. */
  class Document {
    const nodes: seq<Element>
    const query: string -> Lookup
    var alerts: seq<string>

    /** Elements are distinct and a match names one of them. */
    ghost predicate Valid() {
      && (forall i, j :: 0 <= i < j < |nodes| ==> nodes[i] != nodes[j])
      && (forall s :: query(s).Match? ==> query(s).index < |nodes|)
    }

    constructor (nodes: seq<Element>, query: string -> Lookup)
      requires forall i, j :: 0 <= i < j < |nodes| ==> nodes[i] != nodes[j]
      requires forall s :: query(s).Match? ==> query(s).index < |nodes|
      ensures Valid()
      ensures this.nodes == nodes && this.query == query && alerts == []
    {
      this.nodes := nodes;
      this.query := query;
      alerts := [];
    }

    /** The state of every element, in document order. */
    function Snapshot(): (snap: seq<NodeState>)
      reads nodes
      ensures |snap| == |nodes|
      ensures forall k :: 0 <= k < |nodes| ==> snap[k] == nodes[k].State()
    {
      seq(|nodes|, k requires 0 <= k < |nodes| reads nodes => nodes[k].State())
    }

    /** `doType`: focus the element, clear it, enter the text of `String(v)` one
        character at a time with an `input` event after each, then fire `change`. */
    method DoType(selector: string, v: JsValue) returns (r: Result<bool>)
      requires Valid()
      modifies nodes
      ensures query(selector) == BadSelector ==> r == Err(SyntaxError) && Snapshot() == old(Snapshot())
      ensures query(selector) == NoMatch ==> r == Ok(false) && Snapshot() == old(Snapshot())
      ensures query(selector).Match? ==>
        && r == Ok(true)
        && Snapshot() == old(Snapshot())[query(selector).index := Typed(old(Snapshot())[query(selector).index], JsString(v))]
    {
      var found := query(selector);
      if found == BadSelector {
        return Err(SyntaxError);
      }
      if found == NoMatch {
        return Ok(false);
      }
      var el := nodes[found.index];
      el.events := el.events + [Focused];
      el.value := "";
      var s := JsString(v);
      var i := 0;
      while i < |s|
        invariant 0 <= i <= |s|
        invariant el.value == s[..i]
        invariant el.events == old(el.events) + [Focused] + Typing(s)[..i]
        invariant forall k :: 0 <= k < |nodes| && k != found.index ==> nodes[k].State() == old(nodes[k].State())
      {
        assert s[..i + 1] == s[..i] + [s[i]];
        assert Typing(s)[..i + 1] == Typing(s)[..i] + [Input(s[..i + 1])];
        el.value := el.value + [s[i]];
        el.events := el.events + [Input(el.value)];
        i := i + 1;
      }
      assert s[..i] == s && Typing(s)[..i] == Typing(s);
      el.events := el.events + [Change];
      assert el.value == s && el.events == old(el.events) + [Focused] + Typing(s) + [Change];
      assert el.State() == Typed(old(el.State()), s);
      assert forall k :: 0 <= k < |nodes| && k != found.index ==> nodes[k] != el;
      r := Ok(true);
    }

    /** `doClick`: focus and click the element. */
    method DoClick(selector: string) returns (r: Result<bool>)
      requires Valid()
      modifies nodes
      ensures query(selector) == BadSelector ==> r == Err(SyntaxError) && Snapshot() == old(Snapshot())
      ensures query(selector) == NoMatch ==> r == Ok(false) && Snapshot() == old(Snapshot())
      ensures query(selector).Match? ==>
        && r == Ok(true)
        && Snapshot() == old(Snapshot())[query(selector).index := ClickedOn(old(Snapshot())[query(selector).index])]
    {
      var found := query(selector);
      if found == BadSelector {
        return Err(SyntaxError);
      }
      if found == NoMatch {
        return Ok(false);
      }
      var el := nodes[found.index];
      el.events := el.events + [Focused, Clicked];
      r := Ok(true);
    }

    /** `doSelect`: on a `SELECT`, choose the first option whose value or text is `v`
        (or report false and change nothing); on any other element, assign `v`. */
    method DoSelect(selector: string, v: JsValue) returns (r: Result<bool>)
      requires Valid()
      modifies nodes
      ensures query(selector) == BadSelector ==> r == Err(SyntaxError) && Snapshot() == old(Snapshot())
      ensures query(selector) == NoMatch ==> r == Ok(false) && Snapshot() == old(Snapshot())
      ensures query(selector).Match? ==>
        var i := query(selector).index;
        var after := Selected(nodes[i].tagName, nodes[i].options, old(Snapshot())[i], v);
        r == Ok(after.1) && Snapshot() == old(Snapshot())[i := after.0]
    {
      var found := query(selector);
      if found == BadSelector {
        return Err(SyntaxError);
      }
      if found == NoMatch {
        return Ok(false);
      }
      var el := nodes[found.index];
      if el.tagName == "SELECT" {
        var k := 0;
        while k < |el.options| && !Picks(el.options[k], v)
          invariant 0 <= k <= |el.options|
          invariant forall j :: 0 <= j < k ==> !Picks(el.options[j], v)
        {
          k := k + 1;
        }
        if k == |el.options| {
          return Ok(false);
        }
        assert FirstOption(el.options, v) == Some(k);
        el.value := el.options[k].value;
        el.events := el.events + [Input(el.value), Change];
        assert el.State() == Selected(el.tagName, el.options, old(el.State()), v).0;
        assert forall j :: 0 <= j < |nodes| && j != found.index ==> nodes[j] != el;
        return Ok(true);
      }
      el.events := el.events + [Focused];
      el.value := AssignedValue(v);
      el.events := el.events + [Input(el.value), Change];
      assert old(el.events) + [Focused] + [Input(el.value), Change] == old(el.events) + [Focused, Input(el.value), Change];
      assert el.State() == Selected(el.tagName, el.options, old(el.State()), v).0;
      assert forall j :: 0 <= j < |nodes| && j != found.index ==> nodes[j] != el;
      r := Ok(true);
    }
  }
}

/** What the helpers promise about the element they act on. */
module DomActionLemmas {
  import opened Wrappers
  import opened DomActions

  /** After `doType` the element holds exactly `String(v)`, having received one `input`
      event per character, the last of which saw the whole text. */
  lemma TypedHoldsText(n: NodeState, v: JsValue)
    ensures Typed(n, JsString(v)).value == JsString(v)
    ensures |Typed(n, JsString(v)).events| == |n.events| + |JsString(v)| + 2
    ensures JsString(v) != [] ==> Typed(n, JsString(v)).events[|n.events| + |JsString(v)|] == Input(JsString(v))
  {
    var s := JsString(v);
    if s != [] {
      assert s[..|s|] == s;
      assert (n.events + [Focused] + Typing(s) + [Change])[|n.events| + |s|] == Typing(s)[|s| - 1];
    }
  }

  /** On a `SELECT`, an argument no option names leaves the element as it was and
      reports false; one that names an option sets the element to that option's value. */
  lemma SelectOnSelect(options: seq<SelectOption>, n: NodeState, v: JsValue)
    ensures (forall k :: 0 <= k < |options| ==> !Picks(options[k], v)) ==> Selected("SELECT", options, n, v) == (n, false)
    ensures forall k :: 0 <= k < |options| && Picks(options[k], v) ==>
      Selected("SELECT", options, n, v).1 && exists j :: 0 <= j <= k && Selected("SELECT", options, n, v).0.value == options[j].value
  {
    forall k | 0 <= k < |options| && Picks(options[k], v)
      ensures Selected("SELECT", options, n, v).1
      ensures exists j :: 0 <= j <= k && Selected("SELECT", options, n, v).0.value == options[j].value
    {
      var j := FirstOption(options, v).value;
      assert j <= k;
    }
  }

  /** A `SELECT` takes only values its options offer: whatever the argument, its value
      afterwards is the old one or an option's value. */
  lemma SelectStaysInOptions(options: seq<SelectOption>, n: NodeState, v: JsValue)
    ensures var after := Selected("SELECT", options, n, v).0;
      after == n || exists k :: 0 <= k < |options| && after.value == options[k].value
  {
  }

  /** On any other element `doSelect` always succeeds and stores the argument as given,
      even one that names no option. */
  lemma SelectOnOtherElement(tagName: string, options: seq<SelectOption>, n: NodeState, s: string)
    requires tagName != "SELECT"
    ensures Selected(tagName, options, n, Str(s)) == (NodeState(s, n.events + [Focused, Input(s), Change]), true)
  {
  }
}
