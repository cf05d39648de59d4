/** The type cache over any history of compilations, failed ones included: which entries can be
    relied on. */
module TypeCacheSound {
  import opened Wrappers
  import opened Codec
  import opened Lowering
  import opened TypeCache

  /** The cache restricted to some classes. */
  function Only(ids: map<string, nat>, names: set<string>): map<string, nat> {
    map n | n in ids && n in names :: ids[n]
  }

  /** Every cached class has its own node; and that of a class in `names`, unless still open, is
      the class compiled against the cached classes in `names`. */
  ghost predicate FaithfulOn(cs: Classes, st: State, names: set<string>, open: set<string>) {
    && st.ids.Keys <= cs.Keys
    && (forall n :: n in st.ids ==> st.ids[n] < st.next && st.ids[n] in st.heap)
    && (forall m, n :: m in st.ids && n in st.ids && m != n ==> st.ids[m] != st.ids[n])
    && (forall n :: n in st.ids && n in names && n !in open ==> CompiledClass(cs[n], Only(st.ids, names), st.heap[st.ids[n]]))
  }

  // ----- single changes -----------------------------------------------------------------------

  lemma AllotOn(cs: Classes, st: State, name: string, def: TypeDef, names: set<string>, open: set<string>)
    requires FaithfulOn(cs, st, names, open) && name in cs && name !in st.ids
    ensures FaithfulOn(cs, st.Allot(name, def), names, open + {name})
  {
    hide CompiledClass;
    var st' := st.Allot(name, def);
    forall n | n in st'.ids && n in names && n !in open + {name}
      ensures CompiledClass(cs[n], Only(st'.ids, names), st'.heap[st'.ids[n]])
    {
      ClassGrows(cs[n], Only(st.ids, names), Only(st'.ids, names), st.heap[st.ids[n]]);
    }
  }

  lemma FillOn(cs: Classes, st: State, name: string, def: TypeDef, names: set<string>, open: set<string>)
    requires FaithfulOn(cs, st, names, open + {name}) && name in st.ids
    requires name in names ==> CompiledClass(cs[name], Only(st.ids, names), def)
    ensures FaithfulOn(cs, st.Fill(st.ids[name], def), names, open)
  {
    hide CompiledClass;
  }

  lemma FillOpenOn(cs: Classes, st: State, name: string, def: TypeDef, names: set<string>, open: set<string>)
    requires FaithfulOn(cs, st, names, open) && name in open && name in st.ids
    ensures FaithfulOn(cs, st.Fill(st.ids[name], def), names, open)
  {
    hide CompiledClass;
  }

  /** Taking back a class outside `names` does not touch those in it. */
  lemma DropOn(cs: Classes, st: State, name: string, names: set<string>, open: set<string>)
    requires FaithfulOn(cs, st, names, open + {name}) && name !in names
    ensures FaithfulOn(cs, st.Drop(name), names, open)
  {
    hide CompiledClass;
    assert Only(st.Drop(name).ids, names) == Only(st.ids, names);
  }

  lemma OnlyGrows(ids: map<string, nat>, ids': map<string, nat>, names: set<string>)
    requires Grows(ids, ids')
    ensures Grows(Only(ids, names), Only(ids', names))
  {
  }

  // ----- whole compilations, whatever their outcome -------------------------------------------

  lemma {:induction false} CompileTypeOn(cs: Classes, st: State, name: string, names: set<string>, open: set<string>)
    requires Closed(cs, names) && FaithfulOn(cs, st, names, open)
    ensures var r := CompileType(cs, st, name);
            FaithfulOn(cs, r.st, names, open) && (r.Done? ==> name in r.st.ids && r.st.ids[name] == r.value)
    decreases cs.Keys - st.ids.Keys, 0
  {
    if name !in st.ids && name in cs {
      hide FaithfulOn, CompiledClass;
      assert name in cs.Keys - st.ids.Keys && name !in cs.Keys - st.ids[name := st.next].Keys;
      match cs[name]
      case IntEnumClass(values) => IntEnumOn(cs, st, name, values, names, open);
      case Dataclass(fields) => DataclassOn(cs, st, name, fields, names, open);
      case BorshEnumClass(variants) =>
        var st1 := st.Allot(name, BorshEnumDef([]));
        AllotOn(cs, st, name, BorshEnumDef([]), names, open);
        NoVariants(Only(st1.ids, names));
        CompileVariantsOn(cs, st1, variants, name, [], [], names, open);
    }
  }

  lemma IntEnumOn(cs: Classes, st: State, name: string, values: set<int>, names: set<string>, open: set<string>)
    requires Closed(cs, names) && FaithfulOn(cs, st, names, open) && name !in st.ids && name in cs && cs[name] == IntEnumClass(values)
    ensures var r := CompileType(cs, st, name);
            FaithfulOn(cs, r.st, names, open) && (r.Done? ==> name in r.st.ids && r.st.ids[name] == r.value)
  {
    hide FaithfulOn, CompiledClass, Closed;
    var st1 := st.Allot(name, IntEnumDef(values));
    AllotOn(cs, st, name, IntEnumDef(values), names, open);
    EnumCompiled(values, Only(st1.ids, names));
    FillOn(cs, st1, name, IntEnumDef(values), names, open);
    assert st1.Fill(st.next, IntEnumDef(values)) == st1;
  }

  lemma {:induction false} DataclassOn(cs: Classes, st: State, name: string, fields: seq<Ann>, names: set<string>, open: set<string>)
    requires Closed(cs, names) && FaithfulOn(cs, st, names, open) && name !in st.ids && name in cs && cs[name] == Dataclass(fields)
    ensures var r := CompileType(cs, st, name);
            FaithfulOn(cs, r.st, names, open) && (r.Done? ==> name in r.st.ids && r.st.ids[name] == r.value)
    decreases cs.Keys - st.ids[name := st.next].Keys, 4
  {
    hide FaithfulOn, CompiledClass, CompiledAll, AllSupported;
    var st1 := st.Allot(name, StructDef([]));
    AllotOn(cs, st, name, StructDef([]), names, open);
    var r := CompileFields(cs, st1, fields);
    CompileFieldsOn(cs, st1, fields, names, open + {name});
    if r.Done? {
      if name in names { StructCompiled(fields, Only(r.st.ids, names), r.value); }
      FillOn(cs, r.st, name, StructDef(r.value), names, open);
    } else {
      if name in names { SupportedFieldsCompile(cs, st1, fields, names); }
      DropOn(cs, r.st, name, names, open);
    }
  }

  lemma {:induction false} CompileVariantsOn(cs: Classes, st: State, variants: seq<AnnVariant>, name: string, before: seq<AnnVariant>,
                                             done: seq<Variant>, names: set<string>, open: set<string>)
    requires Closed(cs, names) && FaithfulOn(cs, st, names, open + {name}) && name in st.ids && name in cs && st.ids[name] < st.next
    requires cs[name] == BorshEnumClass(before + variants) && st.ids[name] in st.heap && st.heap[st.ids[name]] == BorshEnumDef(done)
    requires name in names ==> CompiledVariants(before, Only(st.ids, names), done)
    ensures var r := CompileVariants(cs, st, variants, st.ids[name], done);
            if r.Done? then FaithfulOn(cs, r.st, names, open) && name in r.st.ids && r.st.ids[name] == st.ids[name]
            else FaithfulOn(cs, r.st.Drop(name), names, open)
    decreases cs.Keys - st.ids.Keys, 3, variants
  {
    hide FaithfulOn, CompiledVariants, CompiledClass, CompiledAll, AllSupported;
    if variants == [] {
      assert before + variants == before;
      if name in names { EnumDone(before, Only(st.ids, names), done); }
      FillOn(cs, st, name, BorshEnumDef(done), names, open);
      assert st.Fill(st.ids[name], BorshEnumDef(done)) == st;
    } else {
      var r := CompileFields(cs, st, variants[0].fields);
      CompileFieldsOn(cs, st, variants[0].fields, names, open + {name});
      if name in names { NextVariant(cs, name, before, variants, names); }
      if r.Raised? {
        if name in names { SupportedFieldsCompile(cs, st, variants[0].fields, names); }
        DropOn(cs, r.st, name, names, open);
      } else {
        var done', before' := done + [Variant(variants[0].tag, r.value)], before + [variants[0]];
        if name in names {
          OnlyGrows(st.ids, r.st.ids, names);
          VariantsGrow(before, Only(st.ids, names), Only(r.st.ids, names), done);
          SnocVariant(before, done, variants[0], r.value, Only(r.st.ids, names));
        }
        FillOpenOn(cs, r.st, name, BorshEnumDef(done'), names, open + {name});
        MoveHead(before, variants);
        CompileVariantsOn(cs, r.st.Fill(st.ids[name], BorshEnumDef(done')), variants[1..], name, before', done', names, open);
      }
    }
  }

  lemma EnumDone(variants: seq<AnnVariant>, ids: map<string, nat>, nodes: seq<Variant>)
    requires CompiledVariants(variants, ids, nodes)
    ensures CompiledClass(BorshEnumClass(variants), ids, BorshEnumDef(nodes))
  {
  }

  lemma NextVariant(cs: Classes, name: string, before: seq<AnnVariant>, variants: seq<AnnVariant>, names: set<string>)
    requires Closed(cs, names) && name in names && cs[name] == BorshEnumClass(before + variants) && variants != []
    ensures AllSupported(variants[0].fields, names)
  {
    assert (before + variants)[|before|] == variants[0];
  }

  lemma {:induction false} CompileFieldsOn(cs: Classes, st: State, anns: seq<Ann>, names: set<string>, open: set<string>)
    requires Closed(cs, names) && FaithfulOn(cs, st, names, open)
    ensures var r := CompileFields(cs, st, anns);
            && FaithfulOn(cs, r.st, names, open)
            && (r.Done? && AllSupported(anns, names) ==> CompiledAll(anns, Only(r.st.ids, names), r.value))
    decreases cs.Keys - st.ids.Keys, 2, anns
  {
    hide FaithfulOn, Supported;
    if anns != [] {
      var first := CompileField(cs, st, anns[0]);
      CompileFieldOn(cs, st, anns[0], names, open);
      if first.Done? {
        CompileFieldsOn(cs, first.st, anns[1..], names, open);
        var rest := CompileFields(cs, first.st, anns[1..]);
        if rest.Done? && AllSupported(anns, names) {
          OnlyGrows(first.st.ids, rest.st.ids, names);
          AnnGrows(anns[0], Only(first.st.ids, names), Only(rest.st.ids, names));
          assert AllSupported(anns[1..], names);
        }
      }
    }
  }

  lemma {:induction false} CompileFieldOn(cs: Classes, st: State, ann: Ann, names: set<string>, open: set<string>)
    requires Closed(cs, names) && FaithfulOn(cs, st, names, open)
    ensures var r := CompileField(cs, st, ann);
            && FaithfulOn(cs, r.st, names, open)
            && (r.Done? && Supported(ann, names) ==> CompileAnn(ann, Only(r.st.ids, names)) == Some(r.value))
    decreases cs.Keys - st.ids.Keys, 1, ann
  {
    hide FaithfulOn;
    match ann
    case AnnotatedList(elem, _) => CompileFieldOn(cs, st, elem, names, open);
    case OptionalAnn(inner) => CompileFieldOn(cs, st, inner, names, open);
    case OptAnn(inner) => CompileFieldOn(cs, st, inner, names, open);
    case ListAnn(elem) => CompileFieldOn(cs, st, elem, names, open);
    case ClassAnn(name) => CompileTypeOn(cs, st, name, names, open);
    case _ =>
  }

  // ----- histories ----------------------------------------------------------------------------

  /** The cache after any sequence of requests, whatever became of them. */
  function After(cs: Classes, calls: seq<string>): State {
    if calls == [] then EMPTY else CompileType(cs, After(cs, calls[..|calls| - 1]), calls[|calls| - 1]).st
  }

  lemma {:induction false} AfterOn(cs: Classes, calls: seq<string>, names: set<string>)
    requires Closed(cs, names)
    ensures FaithfulOn(cs, After(cs, calls), names, {})
  {
    if calls != [] {
      hide CompileType, CompiledClass;
      AfterOn(cs, calls[..|calls| - 1], names);
      CompileTypeOn(cs, After(cs, calls[..|calls| - 1]), calls[|calls| - 1], names, {});
    }
  }

  /** These cached classes have nodes of their own, each the class compiled against the others: no
      reference leads to an unfinished or abandoned node. */
  ghost predicate Finished(cs: Classes, st: State, some: set<string>) {
    && some <= st.ids.Keys && some <= cs.Keys
    && (forall n :: n in some ==> st.ids[n] in st.heap && CompiledClass(cs[n], Only(st.ids, some), st.heap[st.ids[n]]))
    && (forall m, n :: m in some && n in some && m != n ==> st.ids[m] != st.ids[n])
  }

  ghost predicate Sound(cs: Classes, st: State, name: string) {
    exists some :: Finished(cs, st, some) && name in some
  }

  lemma FinishedClosed(cs: Classes, st: State, some: set<string>)
    requires Finished(cs, st, some)
    ensures Closed(cs, some)
  {
    assert Only(st.ids, some).Keys == some;
    forall n | n in some
      ensures match cs[n]
              case Dataclass(fields) => AllSupported(fields, some)
              case IntEnumClass(_) => true
              case BorshEnumClass(variants) => forall i :: 0 <= i < |variants| ==> AllSupported(variants[i].fields, some)
    {
      var def := st.heap[st.ids[n]];
      match cs[n]
      case Dataclass(fields) => CompiledAllSupported(fields, Only(st.ids, some), def.fields);
      case IntEnumClass(_) =>
      case BorshEnumClass(variants) =>
        forall i | 0 <= i < |variants| ensures AllSupported(variants[i].fields, some) {
          CompiledAllSupported(variants[i].fields, Only(st.ids, some), def.variants[i].fields);
        }
    }
  }

  /** After any history of compilations, failed ones included, a cached class can be relied on if and
      only if it lies in a closed set of supported classes: every other entry leads to an abandoned
      node. */
  lemma CachedIff(cs: Classes, calls: seq<string>, name: string)
    requires name in After(cs, calls).ids
    ensures Sound(cs, After(cs, calls), name) <==> InClosed(cs, name)
  {
    hide CompiledClass, Closed;
    var st := After(cs, calls);
    if some :| Finished(cs, st, some) && name in some { FinishedClosed(cs, st, some); }
    if names :| Closed(cs, names) && name in names {
      AfterOn(cs, calls, names);
      var some := st.ids.Keys * names;
      assert Only(st.ids, some) == Only(st.ids, names);
      ClosedKnown(cs, names);
      assert Finished(cs, st, some);
    }
  }

  lemma ClosedKnown(cs: Classes, names: set<string>)
    requires Closed(cs, names)
    ensures names <= cs.Keys
  {
  }

  /** A request at any time yields a class that can be relied on if and only if the class lies in a
      closed set; otherwise it is refused, or answered with a stale entry if an earlier failure left
      one behind. */
  lemma CompileTypeIff(cs: Classes, calls: seq<string>, name: string)
    ensures var r := CompileType(cs, After(cs, calls), name);
            && (r.Done? && Sound(cs, r.st, name) <==> InClosed(cs, name))
            && (Faithful(cs, After(cs, calls), {}) ==> (r.Done? <==> InClosed(cs, name)))
  {
    hide CompileType, Finished, Closed;
    var st := After(cs, calls);
    var r := CompileType(cs, st, name);
    var more := calls + [name];
    assert more[..|calls|] == calls;
    assert After(cs, more) == r.st;
    if names :| Closed(cs, names) && name in names {
      ClosedTypeCompiles(cs, st, name, names);
      AfterOn(cs, calls, names);
      CompileTypeOn(cs, st, name, names, {});
    }
    if name in r.st.ids { CachedIff(cs, more, name); }
    if Sound(cs, r.st, name) { SoundCached(cs, r.st, name); }
    if Faithful(cs, st, {}) { FaithfulCompileIff(cs, st, name); }
  }

  lemma SoundCached(cs: Classes, st: State, name: string)
    requires Sound(cs, st, name)
    ensures name in st.ids
  {
  }

  /** Asking for every class of a closed schema, in any order and however often, compiles them all. */
  lemma {:induction false} AllCompiled(cs: Classes, calls: seq<string>)
    requires Closed(cs, cs.Keys) && forall i :: 0 <= i < |calls| ==> calls[i] in cs
    ensures Faithful(cs, After(cs, calls), {}) && forall i :: 0 <= i < |calls| ==> calls[i] in After(cs, calls).ids
  {
    hide CompileType, CompiledClass, Closed;
    if calls != [] {
      var n := |calls| - 1;
      AllCompiled(cs, calls[..n]);
      var st := After(cs, calls[..n]);
      ClosedTypeCompiles(cs, st, calls[n], cs.Keys);
      CompileTypeFaithful(cs, st, calls[n], {});
      forall i | 0 <= i < n ensures calls[i] in After(cs, calls).ids {
        assert calls[..n][i] == calls[i];
      }
    }
  }
}
