/**
  `Hash.xml_object` and `Hash.xml_array` (lib/aliyun/mns.rb): walking the
  tree that ActiveSupport's `Hash.from_xml` produces along a path of tag names.
*/
module XmlTree {
  import opened Wrappers
  import opened RubyHash
  import opened Text

  /** A value inside a parsed document: a Hash, an Array, a String or nil. */
  datatype Node =
    | Map(entries: Hash<Node>)
    | List(items: seq<Node>)
    | Leaf(text: string)
    | Nil

  /** `{}` */
  const Empty: Node := Map([])

  /**
    `n[tag]` in Ruby: a Hash looks the key up (nil when missing), a String
    returns the tag when it occurs in it (nil otherwise), an Array refuses a
    String index and nil has no `[]`.
  */
  function Index(n: Node, tag: string): (r: Result<Node>)
    ensures n.Map? ==> r == Ok(if tag in Keys(n.entries) then Lookup(n.entries, tag).value else Nil)
    ensures n.List? ==> r == Raise(TypeError)
    ensures n.Nil? ==> r == Raise(NoMethodError)
  {
    match n
    case Map(es) => Ok(Lookup(es, tag).GetOr(Nil))
    case Leaf(s) => Ok(if Contains(s, tag) then Leaf(tag) else Nil)
    case List(_) => Raise(TypeError)
    case Nil => Raise(NoMethodError)
  }

  /** `n` is a Hash whose entry under `tag` is the non-nil node `m`. */
  predicate Found(n: Node, tag: string, m: Node) {
    n.Map? && Lookup(n.entries, tag) == Some(m) && !m.Nil?
  }

  /** One step of the walk: `memo[node] || {}`. */
  function Step(n: Node, tag: string): (r: Result<Node>)
    ensures r.Ok? ==> r.value != Nil
    ensures forall m :: Found(n, tag, m) ==> r == Ok(m)
    ensures Index(n, tag) == Ok(Nil) ==> r == Ok(Empty)
  {
    match Index(n, tag)
    case Ok(Nil) => Ok(Empty)
    case other => other
  }

  /** `path.reduce(n) { |memo, node| memo[node] || {} }` */
  function Descend(n: Node, path: seq<string>): (r: Result<Node>)
    ensures path == [] ==> r == Ok(n)
    ensures path != [] && r.Ok? ==> r.value != Nil
    decreases path
  {
    if path == [] then Ok(n)
    else
      match Step(n, path[0])
      case Raise(e) => Raise(e)
      case Ok(m) => Descend(m, path[1..])
  }

  /**
    `Hash.xml_object(content, *path)`, given what `Hash.from_xml(content)`
    yields (a tree, or the error it raises).
  */
  function XmlObject(parsed: Result<Node>, path: seq<string>): (r: Result<Node>)
    ensures parsed.Raise? ==> r == parsed
    ensures path == [] ==> r == parsed
    ensures path != [] && r.Ok? ==> r.value != Nil
  {
    match parsed
    case Raise(e) => Raise(e)
    case Ok(doc) => Descend(doc, path)
  }

  /**
    Along a path of present tags the walk reaches the element the path
    names: `nodes[i + 1]` is the child of `nodes[i]` under `path[i]`.
  */
  lemma {:induction false} DescendFinds(path: seq<string>, nodes: seq<Node>)
    requires |nodes| == |path| + 1
    requires forall i :: 0 <= i < |path| ==> Found(nodes[i], path[i], nodes[i + 1])
    ensures Descend(nodes[0], path) == Ok(nodes[|path|])
  {
    if path != [] {
      assert Found(nodes[0], path[0], nodes[1]);
      forall i | 0 <= i < |path[1..]| ensures Found(nodes[1..][i], path[1..][i], nodes[1..][i + 1]) {
        assert Found(nodes[i + 1], path[i + 1], nodes[i + 2]);
      }
      DescendFinds(path[1..], nodes[1..]);
    }
  }

  /** `xml_object` of a parsed document returns the element a path of present tags names. */
  lemma XmlObjectFinds(parsed: Result<Node>, path: seq<string>, nodes: seq<Node>)
    requires |nodes| == |path| + 1 && parsed == Ok(nodes[0])
    requires forall i :: 0 <= i < |path| ==> Found(nodes[i], path[i], nodes[i + 1])
    ensures XmlObject(parsed, path) == Ok(nodes[|path|])
  {
    DescendFinds(path, nodes);
  }

  /** From `{}` every path leads to `{}`. */
  lemma {:induction false} EmptyStaysEmpty(path: seq<string>)
    ensures Descend(Empty, path) == Ok(Empty)
  {
    if path != [] {
      EmptyStaysEmpty(path[1..]);
    }
  }

  /** Walking `p + q` is walking `p`, then walking `q` from where `p` ended. */
  lemma {:induction false} DescendAppend(n: Node, p: seq<string>, q: seq<string>)
    ensures Descend(n, p + q) == match Descend(n, p)
                                 case Raise(e) => Raise(e)
                                 case Ok(m) => Descend(m, q)
    decreases p
  {
    if p == [] {
      assert p + q == q;
    } else {
      assert (p + q)[0] == p[0] && (p + q)[1..] == p[1..] + q;
      match Step(n, p[0])
      case Raise(e) =>
      case Ok(m) => DescendAppend(m, p[1..], q);
    }
  }

  /**
    Once a step finds its tag missing (or nil) in a Hash, that step and
    every later one yield `{}`.
  */
  lemma MissingTagEmpties(n: Node, p: seq<string>, tag: string, q: seq<string>)
    requires Descend(n, p).Ok? && Descend(n, p).value.Map?
    requires Lookup(Descend(n, p).value.entries, tag) in {None, Some(Nil)}
    ensures Descend(n, p + [tag] + q) == Ok(Empty)
  {
    var m := Descend(n, p).value;
    DescendAppend(n, p, [tag] + q);
    assert p + [tag] + q == p + ([tag] + q);
    assert ([tag] + q)[0] == tag && ([tag] + q)[1..] == q;
    assert Step(m, tag) == Ok(Empty);
    EmptyStaysEmpty(q);
  }

  /** `n.empty?`; nil has no such method. */
  function IsEmpty(n: Node): (r: Result<bool>)
    ensures r.Raise? <==> n.Nil?
  {
    match n
    case Map(es) => Ok(es == [])
    case List(xs) => Ok(xs == [])
    case Leaf(s) => Ok(s == "")
    case Nil => Raise(NoMethodError)
  }

  /** `xs.reject { |n| n.empty? }` */
  function RejectEmpty(xs: seq<Node>): (r: Result<seq<Node>>)
    ensures r.Ok? <==> Nil !in xs
    ensures r.Raise? ==> r.error == NoMethodError
    ensures r.Ok? ==> forall i :: 0 <= i < |r.value| ==> IsEmpty(r.value[i]) == Ok(false)
  {
    if xs == [] then Ok([])
    else
      assert xs == [xs[0]] + xs[1..];
      match IsEmpty(xs[0])
      case Raise(e) => Raise(e)
      case Ok(empty) =>
        match RejectEmpty(xs[1..])
        case Raise(e) => Raise(e)
        case Ok(rest) => Ok(if empty then rest else [xs[0]] + rest)
  }

  lemma RejectEmptyUnfold(xs: seq<Node>)
    requires xs != [] && Nil !in xs
    ensures Nil !in xs[1..]
    ensures RejectEmpty(xs) == Ok((if IsEmpty(xs[0]) == Ok(true) then [] else [xs[0]]) + RejectEmpty(xs[1..]).value)
  {
    assert xs == [xs[0]] + xs[1..];
    var rest := RejectEmpty(xs[1..]).value;
    assert [] + rest == rest;
  }

  /** Rejecting empties distributes over concatenation: the kept elements keep their order. */
  lemma {:induction false} RejectEmptyKeepsOrder(xs: seq<Node>, ys: seq<Node>)
    requires Nil !in xs && Nil !in ys
    ensures RejectEmpty(xs + ys) == Ok(RejectEmpty(xs).value + RejectEmpty(ys).value)
  {
    if xs == [] {
      assert xs + ys == ys;
      assert [] + RejectEmpty(ys).value == RejectEmpty(ys).value;
    } else {
      assert (xs + ys)[0] == xs[0] && (xs + ys)[1..] == xs[1..] + ys;
      RejectEmptyKeepsOrder(xs[1..], ys);
      RejectEmptyUnfold(xs + ys);
      RejectEmptyUnfold(xs);
      var pre := if IsEmpty(xs[0]) == Ok(true) then [] else [xs[0]];
      var a, b := RejectEmpty(xs[1..]).value, RejectEmpty(ys).value;
      assert pre + (a + b) == (pre + a) + b;
    }
  }

  /** Exactly the non-empty elements survive. */
  lemma {:induction false} RejectEmptyMembers(xs: seq<Node>, x: Node)
    requires Nil !in xs
    ensures x in RejectEmpty(xs).value <==> x in xs && IsEmpty(x) == Ok(false)
  {
    if xs != [] {
      RejectEmptyMembers(xs[1..], x);
      assert x in xs <==> x == xs[0] || x in xs[1..];
    }
  }

  /** `Hash.xml_array(content, *path)`: the object, wrapped unless it is an Array, without empties. */
  function XmlArray(parsed: Result<Node>, path: seq<string>): (r: Result<seq<Node>>)
  {
    match XmlObject(parsed, path)
    case Raise(e) => Raise(e)
    case Ok(o) => RejectEmpty(if o.List? then o.items else [o])
  }

  /** What xml_array returns: the kept elements of the Array or of the singleton. */
  lemma XmlArrayElements(parsed: Result<Node>, path: seq<string>)
    requires XmlObject(parsed, path).Ok?
    ensures var o := XmlObject(parsed, path).value;
            var r := XmlArray(parsed, path);
            && (o.List? ==> r == RejectEmpty(o.items))
            && (!o.List? && IsEmpty(o) == Ok(true) ==> r == Ok([]))
            && (!o.List? && IsEmpty(o) == Ok(false) ==> r == Ok([o]))
            && (r.Ok? ==> forall i :: 0 <= i < |r.value| ==> IsEmpty(r.value[i]) == Ok(false))
  {
    var o := XmlObject(parsed, path).value;
    if !o.List? && o != Node.Nil {
      assert [o][0] == o && [o][1..] == [];
      RejectEmptyUnfold([o]);
      assert [o] + [] == [o];
    }
  }

  /** A path whose prefix is already missing yields no elements. */
  lemma MissingPathNoElements(doc: Node, p: seq<string>, q: seq<string>)
    requires Descend(doc, p) == Ok(Empty)
    ensures XmlArray(Ok(doc), p + q) == Ok([])
  {
    DescendAppend(doc, p, q);
    EmptyStaysEmpty(q);
    assert [Empty][0] == Empty && [Empty][1..] == [];
    RejectEmptyUnfold([Empty]);
  }
}
