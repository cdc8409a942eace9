/**
 * The memoised subtree of draco's virtual DOM (src/lazy.rs).
 *
 * A Lazy holds a hash of the data its view is computed from, the view itself
 * and, once rendered, the cached virtual node.  `Create` renders and caches;
 * `Patch` against the previous frame's Lazy reuses that frame's cached vnode
 * without rendering when the hashes agree, and renders once and patches
 * otherwise.  The virtual-DOM operations a VNode performs on the page are
 * outside this model; the Dom class stands in for them and its contracts are
 * all that Lazy relies on.
 */
module Lazy {
  import opened Wrappers

  newtype u64 = x: int | 0 <= x < 0x1_0000_0000_0000_0000

  /** A live DOM node, by identity. */
  type NodeId = nat

  /** The address of a view function (`view as usize`). */
  type ViewId = nat

  /** FxHasher fed first with a value and then with a view's address, then finished. */
  type Hasher<!T> = (T, ViewId) -> u64

  /** A virtual node: the tree a view produced and, once created or patched, its live node. */
  datatype VNode<V> = VNode(tree: V, node: Option<NodeId>)

  /** What a VNode has done to the page. */
  datatype Effect<V> = Created(tree: V, node: NodeId) | Patched(from: V, to: V, node: NodeId)

  /**
   * Stands in for the page and the mailbox: VNode::create and VNode::patch,
   * which mount a tree or bring an old one up to date and return its node.
   */
  class Dom<V> {
    var effects: seq<Effect<V>>
    var nextId: NodeId

    constructor ()
      ensures effects == []
    {
      effects := [];
      nextId := 0;
    }

    /** VNode::create */
    method Create(tree: V) returns (vnode: VNode<V>, node: NodeId)
      modifies this
      ensures vnode == VNode(tree, Some(node))
      ensures effects == old(effects) + [Created(tree, node)]
    {
      node := nextId;
      nextId := nextId + 1;
      vnode := VNode(tree, Some(node));
      effects := effects + [Created(tree, node)];
    }

    /** VNode::patch of a new tree against the old vnode. */
    method Patch(tree: V, prev: VNode<V>) returns (vnode: VNode<V>, node: NodeId)
      modifies this
      ensures vnode == VNode(tree, Some(node))
      ensures effects == old(effects) + [Patched(prev.tree, tree, node)]
    {
      if prev.node.Some? {
        node := prev.node.value;
      } else {
        node := nextId;
        nextId := nextId + 1;
      }
      vnode := VNode(tree, Some(node));
      effects := effects + [Patched(prev.tree, tree, node)];
    }
  }

  class Lazy<V> {
    const hash: u64
    var vnode: Option<VNode<V>>
    const view: () -> V
    /** How many times `view` has been run for this Lazy. */
    ghost var viewCalls: nat

    constructor (hash: u64, view: () -> V)
      ensures this.hash == hash && this.view == view
      ensures vnode == None && viewCalls == 0
    {
      this.hash := hash;
      this.view := view;
      vnode := None;
      viewCalls := 0;
    }

    /** node(): the cached vnode's live node, if there is one. */
    function Node(): (r: Option<NodeId>)
      reads this
      ensures r.Some? <==> (vnode.Some? && vnode.value.node.Some?)
      ensures r.Some? ==> vnode.value.node == r
    {
      if vnode.Some? then vnode.value.node else None
    }

    /** Runs the view, `(self.view)()`. */
    method Render() returns (tree: V)
      modifies this`viewCalls
      ensures tree == view()
      ensures viewCalls == old(viewCalls) + 1
    {
      tree := view();
      viewCalls := viewCalls + 1;
    }

    /** create: renders once, mounts the tree and caches it. */
    method Create(dom: Dom<V>) returns (node: NodeId)
      modifies this, dom
      ensures vnode == Some(VNode(view(), Some(node)))
      ensures Node() == Some(node)
      ensures viewCalls == old(viewCalls) + 1
      ensures dom.effects == old(dom.effects) + [Created(view(), node)]
    {
      var tree := Render();
      var created;
      created, node := dom.Create(tree);
      vnode := Some(created);
    }

    /**
     * patch: takes the previous frame's cache out of `prev`.  None stands for
     * `unwrap_throw` throwing, when `prev` had no cached vnode or that vnode
     * had no live node.  On equal hashes the old vnode moves into this Lazy
     * unrendered; otherwise the view runs once and its tree is patched
     * against the old vnode.
     */
    method Patch(prev: Lazy<V>, dom: Dom<V>) returns (node: Option<NodeId>)
      requires prev != this
      modifies this, prev, dom
      ensures prev.vnode == None
      ensures prev.viewCalls == old(prev.viewCalls)
      ensures old(prev.Node()).None? ==>
                node.None? && vnode == old(vnode) && viewCalls == old(viewCalls)
                && dom.effects == old(dom.effects)
      ensures old(prev.Node()).Some? && hash == prev.hash ==>
                node == old(prev.Node()) && vnode == old(prev.vnode)
                && viewCalls == old(viewCalls) && dom.effects == old(dom.effects)
      ensures old(prev.Node()).Some? && hash != prev.hash ==>
                node.Some? && vnode == Some(VNode(view(), node)) && viewCalls == old(viewCalls) + 1
                && dom.effects == old(dom.effects) + [Patched(old(prev.vnode).value.tree, view(), node.value)]
    {
      var taken := prev.vnode;
      prev.vnode := None;
      if taken.None? || taken.value.node.None? {
        return None;
      }
      var oldVnode := taken.value;
      var oldNode := oldVnode.node.value;
      if hash == prev.hash {
        vnode := Some(oldVnode);
        return Some(oldNode);
      }
      var tree := Render();
      var patched, n := dom.Patch(tree, oldVnode);
      vnode := Some(patched);
      node := Some(n);
    }

    /**
     * do_map: a Lazy whose view maps this one's tree with `f` (VNode::do_map
     * with the message mapper), built by new_with from this Lazy's hash and
     * a view whose address is `mapViewId`.  The mapper's value is not hashed,
     * but its type is: Rust compiles one copy of the mapping closure per
     * mapper type, so `mapViewId` is the address of the copy for `f`'s type.
     */
    method DoMap<W>(f: V -> W, mapViewId: ViewId, hasher: Hasher<u64>) returns (m: Lazy<W>)
      ensures fresh(m)
      ensures m.hash == hasher(hash, mapViewId)
      ensures m.vnode == None && m.viewCalls == 0
      ensures m.view() == f(view())
    {
      m := NewWith(hash, (view, f), (_: u64, captured: (() -> V, V -> W)) => captured.1(captured.0()),
                   mapViewId, hasher);
    }
  }

  /** new: the hash covers `t` and the view's address; the cache starts empty. */
  method New<T, V>(t: T, view: T -> V, viewId: ViewId, hasher: Hasher<T>) returns (l: Lazy<V>)
    ensures fresh(l)
    ensures l.hash == hasher(t, viewId)
    ensures l.vnode == None && l.viewCalls == 0
    ensures l.view() == view(t)
  {
    l := new Lazy(hasher(t, viewId), () => view(t));
  }

  /** new_with: as new, with an extra argument for the view that is not hashed. */
  method NewWith<T, A, V>(t: T, arg: A, view: (T, A) -> V, viewId: ViewId, hasher: Hasher<T>)
    returns (l: Lazy<V>)
    ensures fresh(l)
    ensures l.hash == hasher(t, viewId)
    ensures l.vnode == None && l.viewCalls == 0
    ensures l.view() == view(t, arg)
  {
    l := new Lazy(hasher(t, viewId), () => view(t, arg));
  }

  /**
   * Two frames built from the same data and view: the second frame's patch
   * reuses the first frame's node, renders nothing and changes nothing on the page.
   */
  method RerenderUnchanged<T, V>(t: T, view: T -> V, viewId: ViewId, hasher: Hasher<T>, dom: Dom<V>)
    returns (first: NodeId, second: Option<NodeId>)
    modifies dom
    ensures second == Some(first)
    ensures dom.effects == old(dom.effects) + [Created(view(t), first)]
  {
    var before := New(t, view, viewId, hasher);
    first := before.Create(dom);
    var after := New(t, view, viewId, hasher);
    second := after.Patch(before, dom);
    assert after.viewCalls == 0;
  }

  /**
   * Two frames whose data hash differently: the second frame renders once and
   * patches the first frame's tree into its own.
   */
  method RerenderChanged<T, V>(t: T, t': T, view: T -> V, viewId: ViewId, hasher: Hasher<T>, dom: Dom<V>)
    returns (first: NodeId, second: Option<NodeId>)
    requires hasher(t, viewId) != hasher(t', viewId)
    modifies dom
    ensures second.Some?
    ensures dom.effects == old(dom.effects) + [Created(view(t), first), Patched(view(t), view(t'), second.value)]
  {
    var before := New(t, view, viewId, hasher);
    first := before.Create(dom);
    var after := New(t', view, viewId, hasher);
    second := after.Patch(before, dom);
  }

  /**
   * Equal hashes before mapping give equal hashes after for any two mappers
   * of one type (one `mapViewId`), whatever their values.
   */
  method MappedHashesAgree<V, W>(a: Lazy<V>, b: Lazy<V>, f: V -> W, g: V -> W,
                                 mapViewId: ViewId, hasher: Hasher<u64>)
    returns (ma: Lazy<W>, mb: Lazy<W>)
    requires a.hash == b.hash
    ensures ma.hash == mb.hash
  {
    ma := a.DoMap(f, mapViewId, hasher);
    mb := b.DoMap(g, mapViewId, hasher);
  }
}
