/**
 * On-demand traversal of the contract router (`createRecursiveProxy` and the
 * root case of `createMSWUtilities`). The JavaScript proxy becomes an explicit
 * accessor: each key access on a sub-router computes the extended structural
 * path and yields a leaf, a further sub-router or nothing.
 */
module ContractTree {
  import opened Wrappers
  import HandlerCompiler

  /**
   * A value in the router: a contract procedure, a non-null object whose own
   * keys lead further, or any other value (`null`, a string, a function, ...).
   */
  datatype Node =
    | Proc(procedure: HandlerCompiler.Procedure)
    | Group(children: map<string, Node>)
    | Other

  /** What an access yields: a `{ handler }` leaf, a sub-router proxy, or `undefined`. */
  datatype Accessor =
    | Leaf(procedure: HandlerCompiler.Procedure, path: seq<string>)
    | Sub(router: Node, path: seq<string>)
    | Undefined

  /** The proxy's `get` trap for `key` on the router at `currentPath`. */
  function Get(current: Node, currentPath: seq<string>, key: string): (a: Accessor)
    ensures a.Leaf? <==> current.Group? && key in current.children && current.children[key].Proc?
    ensures a.Sub? <==> current.Group? && key in current.children && current.children[key].Group?
    ensures a.Leaf? ==> a.procedure == current.children[key].procedure && a.path == currentPath + [key]
    ensures a.Sub? ==> a.router == current.children[key] && a.path == currentPath + [key]
  {
    var newPath := currentPath + [key];
    if current.Group? && key in current.children then
      match current.children[key]
      case Proc(p) => Leaf(p, newPath)
      case Group(_) => Sub(current.children[key], newPath)
      case Other => Undefined
    else
      Undefined
  }

  /** `createMSWUtilities`: a procedure root is a leaf at `[]`; anything else is traversed. */
  function Root(router: Node): (a: Accessor)
    ensures a.Leaf? <==> router.Proc?
    ensures a.Leaf? || a.Sub?
    ensures a.path == []
  {
    if router.Proc? then Leaf(router.procedure, []) else Sub(router, [])
  }

  /** One further key access; only a sub-router has keys that lead on. */
  function Step(a: Accessor, key: string): Accessor {
    match a
    case Sub(router, path) => Get(router, path, key)
    case _ => Undefined
  }

  /** The accessor reached from the root by the keys in order. */
  function Walk(router: Node, keys: seq<string>): Accessor {
    if keys == [] then Root(router) else Step(Walk(router, keys[..|keys| - 1]), keys[|keys| - 1])
  }

  /** Reference: the node the keys name in the tree, read from the root down. */
  function NodeAt(node: Node, keys: seq<string>): Option<Node> {
    if keys == [] then Some(node)
    else if node.Group? && keys[0] in node.children then NodeAt(node.children[keys[0]], keys[1..])
    else None
  }

  /** `NodeAt` one key further down. */
  lemma {:induction false} NodeAtSnoc(node: Node, keys: seq<string>, key: string)
    ensures NodeAt(node, keys + [key])
            == match NodeAt(node, keys)
               case Some(n) => if n.Group? && key in n.children then Some(n.children[key]) else None
               case None => None
  {
    if keys != [] {
      assert (keys + [key])[0] == keys[0] && (keys + [key])[1..] == keys[1..] + [key];
      if node.Group? && keys[0] in node.children {
        NodeAtSnoc(node.children[keys[0]], keys[1..], key);
      }
    } else {
      assert [] + [key] == [key] && [key][1..] == [];
    }
  }

  /**
   * Every accessor reached from the root carries exactly the keys used to reach
   * it as its structural path; a procedure root is a leaf with path `[]`.
   */
  lemma {:induction false} WalkPath(router: Node, keys: seq<string>)
    ensures Walk(router, keys).Leaf? || Walk(router, keys).Sub? ==> Walk(router, keys).path == keys
    ensures router.Proc? ==> Walk(router, []) == Leaf(router.procedure, [])
  {
    if keys != [] {
      var init := keys[..|keys| - 1];
      WalkPath(router, init);
      assert init + [keys[|keys| - 1]] == keys;
    }
  }

  /**
   * Traversal agrees with the tree: the keys reach a leaf exactly when they name
   * a procedure (and the leaf holds it), and below the root they reach a
   * sub-router exactly when they name a non-null object.
   */
  ghost predicate WalkAgrees(router: Node, keys: seq<string>) {
    && (forall p :: Walk(router, keys) == Leaf(p, keys) <==> NodeAt(router, keys) == Some(Proc(p)))
    && (keys != [] ==>
          (Walk(router, keys).Sub? <==> NodeAt(router, keys).Some? && NodeAt(router, keys).value.Group?))
    && (Walk(router, keys).Sub? ==> NodeAt(router, keys) == Some(Walk(router, keys).router))
  }

  /** One key access keeps traversal and tree in agreement. */
  lemma WalkAgreesSnoc(router: Node, init: seq<string>, key: string)
    requires WalkAgrees(router, init)
    ensures WalkAgrees(router, init + [key])
  {
    var keys := init + [key];
    var prev := Walk(router, init);
    assert Walk(router, keys) == Step(prev, key) by {
      assert keys[..|keys| - 1] == init && keys[|keys| - 1] == key;
    }
    NodeAtSnoc(router, init, key);
    WalkPath(router, init);
    if prev.Sub? {
      assert NodeAt(router, init) == Some(prev.router);
    } else {
      if prev.Leaf? {
        assert NodeAt(router, init) == Some(Proc(prev.procedure));
      }
      if prev.Undefined? && NodeAt(router, init).Some? {
        assert !NodeAt(router, init).value.Group?;
      }
    }
  }

  /** Traversal and tree agree on every key sequence, by induction on its length. */
  lemma {:induction false} WalkFinds(router: Node, keys: seq<string>)
    ensures WalkAgrees(router, keys)
  {
    if keys == [] {
      WalkPath(router, keys);
    } else {
      var init := keys[..|keys| - 1];
      WalkFinds(router, init);
      WalkAgreesSnoc(router, init, keys[|keys| - 1]);
      assert init + [keys[|keys| - 1]] == keys;
    }
  }

  /** The leaf's `handler(mockResponse)`; other accessors have none. */
  function Handler<I, O>(a: Accessor, mock: HandlerCompiler.MockSpec<I, O>, baseUrl: string,
                         codecs: HandlerCompiler.Codecs<I, O>): (h: Option<HandlerCompiler.HttpHandler>)
    ensures h.Some? <==> a.Leaf?
  {
    match a
    case Leaf(p, path) => Some(HandlerCompiler.CreateHandler(p, path, mock, baseUrl, codecs))
    case _ => None
  }

  /**
   * The handler reached by keys naming a procedure is compiled for that procedure
   * at exactly that structural path.
   */
  lemma HandlerAtKeys<I, O>(router: Node, keys: seq<string>, p: HandlerCompiler.Procedure,
                            mock: HandlerCompiler.MockSpec<I, O>, baseUrl: string, codecs: HandlerCompiler.Codecs<I, O>)
    requires NodeAt(router, keys) == Some(Proc(p))
    ensures Handler(Walk(router, keys), mock, baseUrl, codecs)
            == Some(HandlerCompiler.CreateHandler(p, keys, mock, baseUrl, codecs))
  {
    WalkFinds(router, keys);
  }
}
