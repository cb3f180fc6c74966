/** process_create's three sections: the clone of the kernel's page tree with no lock held, the
    registration, and the insertion into the parent's children; and what comes between them. */
module UmemBirth {
  import opened UmemGraph
  import opened UmemSteps
  import opened UmemProcs
  import opened Seqs

  /** umem_process_register, with the tree cloned before. */
  function Registered(g: Graph, parent: nat, p: nat, tree: Tree): (g': Graph) {
    g.(kin := g.kin[p := Kin(Some(parent), false, {})], owned := g.owned[p := {}], views := g.views[p := map[]],
       ends := g.ends[p := Ends(None, None)], trees := g.trees[p := tree])
  }

  /** The insertion into the parent's children. */
  function Adopted(g: Graph, parent: nat, p: nat): (g': Graph)
    requires parent in g.kin
  {
    g.(kin := g.kin[parent := g.kin[parent].(children := g.kin[parent].children + {p})])
  }

  /** A consistent graph in which process `p` is about to be created. */
  ghost predicate Expecting(g: Graph, lists: Lists, parent: nat, p: nat) {
    Good(g, lists) && parent in g.kin && parent in g.trees && p !in g.kin && parent < p && forall q: nat ::
        q in g.kin ==> q < p
  }

  /** With nothing in between, the sections together are the creation as one step. */
  lemma TogetherBorn(g: Graph, lists: Lists, parent: nat, p: nat)
    requires Expecting(g, lists, parent, p)
    ensures Adopted(Registered(g, parent, p, g.kernel), parent, p) == Born(g, parent, p)
    ensures Good(Adopted(Registered(g, parent, p, g.kernel), parent, p), lists[p := []])
  {
    var kin := g.kin[parent := g.kin[parent].(children := g.kin[parent].children + {p})];
    assert g.kin[p := Kin(Some(parent), false, {})][parent := kin[parent]] == kin[p := Kin(Some(parent), false, {})];
    BornGood(g, lists, parent, p);
  }

  /** The trees agree with the kernel's after the registration just when the clone still does. */
  lemma CloneExact(g: Graph, lists: Lists, parent: nat, p: nat, tree: Tree)
    requires Expecting(g, lists, parent, p)
    ensures var g' := Registered(g, parent, p, tree);
            Mapped(g'.owned, g'.views, g'.blocks, g'.trees, g'.kernel, g'.flight) <==>
                forall a: nat :: tree(a) == g.kernel(a)
  {
    var g' := Registered(g, parent, p, tree);
    assert ProcAt(g.kin, g.owned, g.views, g.threads, g.trees, p);
    forall a: nat
      ensures MapAt(g'.owned, g'.views, g'.blocks, g'.trees, g'.kernel, g'.flight, p, a) <==> tree(a) == g.kernel(a)
    {
      forall t | t in g.flight ensures g.flight[t].proc != p { assert FlightAt(g.threads, g.trees, g.flight, t); }
    }
    forall q: nat, a: nat | q != p ensures MapAt(g'.owned, g'.views, g'.blocks, g'.trees, g'.kernel, g'.flight, q, a) {
      OthersMapped(g, parent, p, tree, q, a);
    }
  }

  lemma OthersMapped(g: Graph, parent: nat, p: nat, tree: Tree, q: nat, a: nat)
    requires Mapped(g.owned, g.views, g.blocks, g.trees, g.kernel, g.flight) && q != p
    ensures var g' := Registered(g, parent, p, tree);
            MapAt(g'.owned, g'.views, g'.blocks, g'.trees, g'.kernel, g'.flight, q, a)
  {
    var g' := Registered(g, parent, p, tree);
    assert MapAt(g.owned, g.views, g.blocks, g.trees, g.kernel, g.flight, q, a);
    if Reaches(g.owned, g.views, g.blocks, q, a) {
      var b :| Covers(g.blocks, b, a) && ((q in g.owned && b in g.owned[q]) || (q in g.views && b in g.views[q]));
      assert Covers(g'.blocks, b, a) && ((q in g'.owned && b in g'.owned[q]) || (q in g'.views && b in g'.views[q]));
    }
  }

  /** umem_map_device between the clone and the registration misses the clone: the trees agree afterwards just when
      the kernel's alias of the range was what it is now. */
  lemma CloneOvertaken(g: Graph, lists: Lists, parent: nat, p: nat, base: nat, bytes: nat, f: Prot)
    requires Expecting(g, lists, parent, p) && Clear(g.blocks, base, bytes) && NoRam(g.ram, base, bytes) && U !in f
    ensures var g' := Registered(Aliased(g, base, bytes, f), parent, p, g.kernel);
            Mapped(g'.owned, g'.views, g'.blocks, g'.trees, g'.kernel, g'.flight) <==>
                forall a: nat :: base <= a < base + bytes ==> g.kernel(a) == f
  {
    var h := Aliased(g, base, bytes, f);
    AliasGood(g, lists, base, bytes, f);
    CloneExact(h, lists, parent, p, g.kernel);
    forall a: nat ensures g.kernel(a) == h.kernel(a) <==> (base <= a < base + bytes ==> g.kernel(a) == f) { }
  }

  /** Between the registration and the insertion, what proc_sys_destroy asserts of its target, that the parent's
      children have it, holds of every registered process but the new one. */
  lemma ChildExact(g: Graph, lists: Lists, parent: nat, p: nat, tree: Tree, q: nat)
    requires Expecting(g, lists, parent, p) && q in Registered(g, parent, p, tree).kin
    ensures var kin := Registered(g, parent, p, tree).kin;
            kin[q].parent.Some? ==> kin[q].parent.value in kin && (q in kin[kin[q].parent.value].children <==> q != p)
  {
    assert KinAt(g.kin, q) && KinAt(g.kin, parent);
  }
}
