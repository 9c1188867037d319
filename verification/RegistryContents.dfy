/** What a registry holds after a batch, told from the tools of the batch themselves. */
module RegistryContents {
  import opened Options
  import opened ToolRegistry

  /** The tool declares the entry: a function by itself, or one of a namespace. */
  predicate Carries(tool: Tool, e: Entry) {
    match tool
    case Plain(f) => e.namespace.None? && e.f == f
    case Namespace(name, fs) => e.namespace == Some(name) && exists j :: 0 <= j < |fs| && fs[j] == e.f
    case OtherTool => false
  }

  predicate Brings(tools: seq<Tool>, e: Entry) { exists i :: 0 <= i < |tools| && Carries(tools[i], e) }

  /** The tool declares a function of the name. */
  predicate Offers(tool: Tool, name: string) {
    match tool
    case Plain(f) => f.name == name
    case Namespace(_, fs) => exists j :: 0 <= j < |fs| && fs[j].name == name
    case OtherTool => false
  }

  lemma OneCarries(tool: Tool, e: Entry)
    ensures e in Flatten([tool]) <==> Carries(tool, e)
  {
    assert [tool][..0] == [];
    assert Flatten([tool]) == match tool
                              case Plain(f) => [Entry(f, None)]
                              case Namespace(name, fs) =>
                                seq(|fs|, i requires 0 <= i < |fs| => Entry(fs[i], Some(name)))
                              case OtherTool => [];
    if tool.Namespace? {
      var all := Flatten([tool]);
      if j :| 0 <= j < |tool.functions| && e == Entry(tool.functions[j], Some(tool.name)) { assert all[j] == e; }
    }
  }

  lemma FlattenSnoc(init: seq<Tool>, last: Tool)
    ensures Flatten(init + [last]) == Flatten(init) + Flatten([last])
  {
    assert (init + [last])[..|init|] == init && [last][..0] == [];
  }

  /** The entries of a batch are exactly what its tools declare. */
  lemma {:induction false} FlattenBrings(tools: seq<Tool>, e: Entry)
    ensures e in Flatten(tools) <==> Brings(tools, e)
  {
    if tools != [] {
      var init, last := tools[..|tools| - 1], tools[|tools| - 1];
      assert tools == init + [last];
      FlattenBrings(init, e);
      FlattenSnoc(init, last);
      OneCarries(last, e);
      if i :| 0 <= i < |init| && Carries(init[i], e) { assert Carries(tools[i], e); }
    }
  }

  lemma {:induction false} NamesOf(c: Contents, entries: seq<Entry>, name: string)
    ensures name in Loaded(c, entries).tools <==> name in c.tools || exists e :: e in entries && e.f.name == name
  {
    if entries != [] {
      var init, last := entries[..|entries| - 1], entries[|entries| - 1];
      assert entries == init + [last];
      NamesOf(c, init, name);
      assert last in entries && forall e :: e in entries <==> e in init || e == last;
    }
  }

  lemma OffersIff(tools: seq<Tool>, name: string)
    ensures (exists e :: e in Flatten(tools) && e.f.name == name)
       <==> exists i :: 0 <= i < |tools| && Offers(tools[i], name)
  {
    if e :| e in Flatten(tools) && e.f.name == name {
      FlattenBrings(tools, e);
      var i :| 0 <= i < |tools| && Carries(tools[i], e);
      assert Offers(tools[i], name);
    }
    if i :| 0 <= i < |tools| && Offers(tools[i], name) {
      var e := OfferedEntry(tools[i], name);
      FlattenBrings(tools, e);
    }
  }

  lemma OfferedEntry(tool: Tool, name: string) returns (e: Entry)
    requires Offers(tool, name)
    ensures Carries(tool, e) && e.f.name == name
  {
    match tool
    case Plain(f) => e := Entry(f, None);
    case Namespace(n, fs) =>
      var j :| 0 <= j < |fs| && fs[j].name == name;
      e := Entry(fs[j], Some(n));
    case OtherTool =>
  }

  /** A name is loaded exactly when it was before, or some tool of the batch declares a function of that name. */
  lemma NamesLoaded(c: Contents, tools: seq<Tool>, name: string)
    ensures name in Loaded(c, Flatten(tools)).tools
            <==> name in c.tools || exists i :: 0 <= i < |tools| && Offers(tools[i], name)
  {
    NamesOf(c, Flatten(tools), name);
    OffersIff(tools, name);
  }

  /** The entry brings the namespace: with a name of its own, by a function that was not there. */
  predicate Opens(c: Contents, e: Entry, n: string) {
    n != "" && e.namespace == Some(n) && e.f.name !in c.tools
  }

  lemma {:induction false} NamespacesOf(c: Contents, entries: seq<Entry>, n: string)
    requires forall i, j :: 0 <= i < j < |entries| ==> Agree(entries[i], entries[j])
    ensures n in Loaded(c, entries).namespaces <==> n in c.namespaces || exists e :: e in entries && Opens(c, e, n)
    ensures forall e :: e in entries && e.f.name !in c.tools ==>
              e.f.name in Loaded(c, entries).tools && Loaded(c, entries).tools[e.f.name] == e
  {
    if entries != [] {
      var init, last := entries[..|entries| - 1], entries[|entries| - 1];
      assert entries == init + [last];
      NamespacesOf(c, init, n);
      NamesOf(c, init, last.f.name);
      LoadedGrows(c, init);
      NextNamespace(c, init, last, n);
    }
  }

  lemma NextNamespace(c: Contents, init: seq<Entry>, last: Entry, n: string)
    requires forall e :: e in init ==> Agree(e, last)
    requires n in Loaded(c, init).namespaces <==> n in c.namespaces || exists e :: e in init && Opens(c, e, n)
    requires last.f.name in Loaded(c, init).tools
             <==> last.f.name in c.tools || exists e :: e in init && e.f.name == last.f.name
    requires forall e :: e in init && e.f.name !in c.tools ==>
               e.f.name in Loaded(c, init).tools && Loaded(c, init).tools[e.f.name] == e
    ensures var entries := init + [last];
            && (n in Loaded(c, entries).namespaces <==> n in c.namespaces || exists e :: e in entries && Opens(c, e, n))
            && forall e :: e in entries && e.f.name !in c.tools ==>
                 e.f.name in Loaded(c, entries).tools && Loaded(c, entries).tools[e.f.name] == e
  {
    var entries := init + [last];
    assert entries[..|init|] == init && Loaded(c, entries) == LoadOne(Loaded(c, init), last);
    assert last in entries && forall e :: e in entries <==> e in init || e == last;
    if last.f.name in Loaded(c, init).tools && last.f.name !in c.tools {
      var e :| e in init && e.f.name == last.f.name;
      assert e == last;
    }
  }

  /** A namespace is known exactly when it was before, or the batch brings a new function in it and it has a name. */
  lemma NamespacesLoaded(c: Contents, tools: seq<Tool>, n: string)
    requires Loadable(c, Flatten(tools))
    ensures n in Loaded(c, Flatten(tools)).namespaces
            <==> n in c.namespaces
                 || (n != "" && exists i, j :: 0 <= i < |tools| && tools[i].Namespace? && tools[i].name == n
                                  && 0 <= j < |tools[i].functions| && tools[i].functions[j].name !in c.tools)
  {
    var entries := Flatten(tools);
    NamespacesOf(c, entries, n);
    if e :| e in entries && Opens(c, e, n) {
      FlattenBrings(tools, e);
    }
    if i, j :| 0 <= i < |tools| && tools[i].Namespace? && tools[i].name == n
               && 0 <= j < |tools[i].functions| && tools[i].functions[j].name !in c.tools {
      var e := Entry(tools[i].functions[j], Some(n));
      assert Carries(tools[i], e);
      FlattenBrings(tools, e);
    }
  }

  // ----- schema bytes -----

  lemma {:induction false} BytesConcat(a: string, b: string)
    ensures Bytes(a + b) == Bytes(a) + Bytes(b)
  {
    if b == "" {
      assert a + b == a;
    } else {
      assert (a + b)[..|a + b| - 1] == a + b[..|b| - 1];
      BytesConcat(a, b[..|b| - 1]);
    }
  }

  /** UTF-8 by section 3 of RFC 3629: one byte up to U+007F, two up to U+07FF, three up to U+FFFF, and four beyond. */
  lemma BytesOfText(a: string, c: char, b: string)
    ensures Bytes("") == 0
    ensures Bytes(a + [c] + b) == Bytes(a) + Bytes(b)
              + (if c as int <= 0x7F then 1 else if c as int <= 0x7FF then 2 else if c as int <= 0xFFFF then 3 else 4)
  {
    BytesConcat(a + [c], b);
    BytesConcat(a, [c]);
    assert [c][..0] == "";
  }
}
