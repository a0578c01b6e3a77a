/**
 * The expat-driven XML-to-object builder of other/expat2.py: elements with
 * a name, an attribute map, character data and children, and a builder
 * whose start-tag, end-tag and character-data handlers grow a forest of
 * elements with a stack of open elements. Expat itself is replaced by an
 * explicit sequence of events.
 */
module Expat2 {
  import opened Wrappers

  // ----- whitespace and `str.strip` -----

  /** The characters `str.strip()` removes: space, tab, newline, carriage return, vertical tab, form feed. */
  predicate IsSpace(c: char)
  {
    c == ' ' || c == '\t' || c == '\n' || c == '\r' || c == '\U{000B}' || c == '\U{000C}'
  }

  predicate Blank(s: string)
  {
    forall i :: 0 <= i < |s| ==> IsSpace(s[i])
  }

  /** `s` without its leading whitespace: only whitespace is removed, and the rest starts with none. */
  function StripLeft(s: string): (r: string)
    ensures |r| <= |s| && r == s[|s| - |r|..]
    ensures Blank(s[..|s| - |r|])
    ensures r != [] ==> !IsSpace(r[0])
  {
    if s != [] && IsSpace(s[0]) then StripLeft(s[1..]) else s
  }

  /** `s` without its trailing whitespace: only whitespace is removed, and the rest ends with none. */
  function StripRight(s: string): (r: string)
    ensures |r| <= |s| && r == s[..|r|]
    ensures Blank(s[|r|..])
    ensures r != [] ==> !IsSpace(r[|r| - 1])
  {
    if s != [] && IsSpace(s[|s| - 1]) then StripRight(s[..|s| - 1]) else s
  }

  /**
   * `str.strip()`: the string without its leading and trailing whitespace.
   * The result is a slice of `s`, everything cut off on either side is
   * whitespace, and the result neither starts nor ends with whitespace.
   */
  function Strip(s: string): (r: string)
    ensures exists i, j :: 0 <= i <= j <= |s| && r == s[i..j] && Blank(s[..i]) && Blank(s[j..])
    ensures r != [] ==> !IsSpace(r[0]) && !IsSpace(r[|r| - 1])
  {
    var l := StripLeft(s);
    var r := StripRight(l);
    SliceOfSlice(s, l, r);
    r
  }

  /**
   * A prefix `r` of a suffix `l` of `s` is a slice of `s`; when the parts of
   * `s` before `l` and of `l` after `r` are blank, so is everything around
   * that slice, and `r` starts as `l` does.
   */
  lemma SliceOfSlice(s: string, l: string, r: string)
    requires |l| <= |s| && l == s[|s| - |l|..] && Blank(s[..|s| - |l|])
    requires |r| <= |l| && r == l[..|r|] && Blank(l[|r|..])
    requires l != [] ==> !IsSpace(l[0])
    ensures exists i, j :: 0 <= i <= j <= |s| && r == s[i..j] && Blank(s[..i]) && Blank(s[j..])
    ensures r != [] ==> !IsSpace(r[0])
  {
    var i := |s| - |l|;
    assert s[i + |r|..] == l[|r|..];
    assert r == s[i..i + |r|];
  }

  lemma {:induction false} StripLeftBlank(s: string)
    ensures StripLeft(s) == [] <==> Blank(s)
  {
    if s != [] && IsSpace(s[0]) {
      StripLeftBlank(s[1..]);
      if Blank(s[1..]) {
        forall i | 0 <= i < |s| ensures IsSpace(s[i]) {
          if i > 0 { assert s[i] == s[1..][i - 1]; }
        }
      }
    }
  }

  lemma {:induction false} StripRightEmpty(s: string)
    ensures StripRight(s) == [] <==> Blank(s)
    decreases |s|
  {
    if s != [] && IsSpace(s[|s| - 1]) {
      var t := s[..|s| - 1];
      StripRightEmpty(t);
      if Blank(t) {
        forall i | 0 <= i < |s| ensures IsSpace(s[i]) {
          if i < |s| - 1 { assert s[i] == t[i]; }
        }
      } else {
        var i :| 0 <= i < |t| && !IsSpace(t[i]);
        assert s[i] == t[i];
      }
    }
  }

  /** `data.strip()` is empty exactly when every character of `data` is whitespace. */
  lemma StripEmptyIff(s: string)
    ensures Strip(s) == [] <==> Blank(s)
  {
    StripLeftBlank(s);
    var l := StripLeft(s);
    StripRightEmpty(l);
  }

  // ----- elements -----

  /** The children of `cs` named `name`, in order. */
  function ChildrenNamed(cs: seq<Element>, name: string): (r: seq<Element>)
    ensures |r| <= |cs|
    ensures forall i :: 0 <= i < |r| ==> r[i] in cs && r[i].name == name
    ensures forall i :: 0 <= i < |cs| && cs[i].name == name ==> cs[i] in r
  {
    if cs == [] then []
    else (if cs[0].name == name then [cs[0]] else []) + ChildrenNamed(cs[1..], name)
  }

  /** Filtering by name distributes over concatenation, so it keeps the children's order. */
  lemma {:induction false} ChildrenNamedAppend(a: seq<Element>, b: seq<Element>, name: string)
    ensures ChildrenNamed(a + b, name) == ChildrenNamed(a, name) + ChildrenNamed(b, name)
  {
    if a == [] {
      assert a + b == b;
    } else {
      assert (a + b)[0] == a[0] && (a + b)[1..] == a[1..] + b;
      ChildrenNamedAppend(a[1..], b, name);
    }
  }

  class Element {
    const name: string
    const attributes: map<string, string>
    var cdata: string
    var children: seq<Element>

    constructor(name: string, attributes: map<string, string>)
      ensures this.name == name && this.attributes == attributes
      ensures cdata == "" && children == []
    {
      this.name := name;
      this.attributes := attributes;
      cdata := "";
      children := [];
    }

    /** `addChild`: appends to the children and changes nothing else. */
    method AddChild(element: Element)
      modifies this
      ensures children == old(children) + [element] && cdata == old(cdata)
    {
      children := children + [element];
    }

    /** `getAttribute`: the attribute's value, or None when the key is absent. */
    function GetAttribute(key: string): (r: Option<string>)
      ensures r.Some? <==> key in attributes
      ensures r.Some? ==> r.value == attributes[key]
    {
      if key in attributes then Some(attributes[key]) else None
    }

    /** `getElements`: every child for the empty name, else the children of that name in order. */
    function GetElements(name: string): (r: seq<Element>)
      reads this
      ensures name == "" ==> r == children
      ensures name != "" ==> forall i :: 0 <= i < |r| ==> r[i] in children && r[i].name == name
      ensures name != "" ==> forall i :: 0 <= i < |children| && children[i].name == name ==> children[i] in r
    {
      if name != "" then ChildrenNamed(children, name) else children
    }
  }

  /** After `AddChild(e)`, `getElements(name)` gains `e` at its end exactly when `e` has that name. */
  lemma GetElementsAfterAdd(before: seq<Element>, e: Element, name: string)
    requires name != ""
    ensures ChildrenNamed(before + [e], name)
         == ChildrenNamed(before, name) + (if e.name == name then [e] else [])
  {
    ChildrenNamedAppend(before, [e], name);
  }

  // ----- the builder -----

  /** One callback from the parser. */
  datatype Event =
    | Start(name: string, attributes: map<string, string>)
    | End(name: string)
    | Chars(data: string)

  /** The number of start events. */
  function Starts(events: seq<Event>): (n: nat)
    ensures n <= |events|
  {
    if events == [] then 0 else (if events[0].Start? then 1 else 0) + Starts(events[1..])
  }

  lemma {:induction false} StartsAppend(a: seq<Event>, b: seq<Event>)
    ensures Starts(a + b) == Starts(a) + Starts(b)
  {
    if a == [] {
      assert a + b == b;
    } else {
      assert (a + b)[0] == a[0] && (a + b)[1..] == a[1..] + b;
      StartsAppend(a[1..], b);
    }
  }

  /** No start event names the root. */
  predicate NoRootStart(events: seq<Event>, rootname: string)
  {
    forall i :: 0 <= i < |events| && events[i].Start? ==> events[i].name != rootname
  }

  class Xml2Obj {
    var root: seq<Element>
    var nodeStack: seq<Element>
    const rootname: string
    /** Accepted start tags, and end tags that popped the stack, so far. */
    ghost var accepted: nat
    ghost var popped: nat

    /**
     * The stack invariant: the bottom of the stack is the last root
     * element, each open element is the last child of the one below it, no
     * element is open twice, every root element carries the root name, and
     * the depth is the accepted start tags minus the effective end tags.
     */
    ghost predicate Valid()
      reads this, nodeStack
    {
      && (nodeStack != [] ==> root != [] && root[|root| - 1] == nodeStack[0])
      && (forall i :: 0 <= i < |nodeStack| - 1 ==>
            nodeStack[i].children != [] && nodeStack[i].children[|nodeStack[i].children| - 1] == nodeStack[i + 1])
      && (forall i, j :: 0 <= i < j < |nodeStack| ==> nodeStack[i] != nodeStack[j])
      && (forall e :: e in root ==> e.name == rootname)
      && accepted >= popped && |nodeStack| == accepted - popped
    }

    /** The open element, as a frame. */
    function Top(): set<Element>
      reads this
    {
      if nodeStack == [] then {} else {nodeStack[|nodeStack| - 1]}
    }

    constructor(rootname: string)
      ensures Valid() && this.rootname == rootname
      ensures root == [] && nodeStack == [] && accepted == 0 && popped == 0
    {
      this.rootname := rootname;
      root := [];
      nodeStack := [];
      accepted := 0;
      popped := 0;
    }

    /**
     * `StartElement`: ignored while no element is open unless it is the
     * root name; otherwise a new element becomes the last child of the open
     * element (or the last root element) and is pushed.
     */
    method StartElement(name: string, attributes: map<string, string>)
      requires Valid()
      modifies this, Top()
      ensures Valid()
      ensures old(nodeStack) == [] && name != rootname ==>
        root == old(root) && nodeStack == old(nodeStack) && accepted == old(accepted) && popped == old(popped)
      ensures old(nodeStack) != [] || name == rootname ==>
        && |nodeStack| == |old(nodeStack)| + 1 && nodeStack[..|old(nodeStack)|] == old(nodeStack)
        && var e := nodeStack[|nodeStack| - 1];
           && fresh(e) && e.name == name && e.attributes == attributes && e.cdata == "" && e.children == []
           && (old(nodeStack) == [] ==> root == old(root) + [e])
           && (old(nodeStack) != [] ==>
                 var parent := old(nodeStack)[|old(nodeStack)| - 1];
                 && root == old(root)
                 && parent.children == old(parent.children) + [e] && parent.cdata == old(parent.cdata))
           && accepted == old(accepted) + 1 && popped == old(popped)
    {
      if name != rootname && |nodeStack| == 0 {
        return;
      }
      var element := new Element(name, attributes);
      if nodeStack != [] {
        var parent := nodeStack[|nodeStack| - 1];
        parent.AddChild(element);
      } else {
        root := root + [element];
      }
      nodeStack := nodeStack + [element];
      accepted := accepted + 1;
    }

    /** `EndElement`: pops one open element, and does nothing when none is open. */
    method EndElement(name: string)
      requires Valid()
      modifies this
      ensures Valid() && root == old(root) && accepted == old(accepted)
      ensures old(nodeStack) != [] ==>
        nodeStack == old(nodeStack)[..|old(nodeStack)| - 1] && popped == old(popped) + 1
      ensures old(nodeStack) == [] ==> nodeStack == [] && popped == old(popped)
    {
      if |nodeStack| != 0 {
        nodeStack := nodeStack[..|nodeStack| - 1];
        popped := popped + 1;
      }
    }

    /**
     * `CharacterData`: data that is not all whitespace is appended, as it
     * is, to the open element's character data; otherwise, or when no
     * element is open, nothing changes.
     */
    method CharacterData(data: string)
      requires Valid()
      modifies Top()
      ensures Valid()
      ensures old(nodeStack) != [] && !Blank(data) ==>
        var top := nodeStack[|nodeStack| - 1];
        top.cdata == old(top.cdata) + data && top.children == old(top.children)
      ensures old(nodeStack) == [] || Blank(data) ==> forall e :: e in Top() ==> unchanged(e)
    {
      if [] == nodeStack {
        return;
      }
      StripEmptyIff(data);
      if Strip(data) != [] {
        var element := nodeStack[|nodeStack| - 1];
        element.cdata := element.cdata + data;
      }
    }

    /**
     * The parse loop with expat's callbacks as an explicit event
     * sequence: the stack invariant holds throughout, the depth grows by
     * at most one per start event, and without a start of the root name
     * nothing is ever kept.
     */
    method Replay(events: seq<Event>)
      requires Valid()
      modifies this, nodeStack
      ensures Valid()
      ensures |nodeStack| <= |old(nodeStack)| + Starts(events)
      ensures old(nodeStack) == [] && NoRootStart(events, rootname) ==> root == old(root) && nodeStack == []
    {
      var j := 0;
      while j < |events|
        invariant 0 <= j <= |events|
        invariant Valid()
        invariant forall e :: e in nodeStack ==> e in old(nodeStack) || fresh(e)
        invariant |nodeStack| <= |old(nodeStack)| + Starts(events[..j])
        invariant old(nodeStack) == [] && NoRootStart(events[..j], rootname) ==> root == old(root) && nodeStack == []
      {
        var ev := events[j];
        assert forall e :: e in Top() ==> e in old(nodeStack) || fresh(e);
        match ev {
          case Start(n, a) => StartElement(n, a);
          case End(n) => EndElement(n);
          case Chars(d) => CharacterData(d);
        }
        StartsAppend(events[..j], [ev]);
        assert events[..j + 1] == events[..j] + [ev];
        j := j + 1;
      }
      assert events[..j] == events;
    }
  }
}
