/**
  * What the encoder's output looks like, proved about the reference
  * definition `Encode`. `Serializer.GarnishDataSerializer.Serialize` is
  * proved to leave exactly `Encode(...)` in the store, so each lemma here is
  * a statement about the serializer's output.
  */
module Properties {
  import opened Wrappers
  import opened Options
  import opened GarnishStore
  import opened Encoding
  import Serde

  /** `v` holds no struct, tuple struct, struct variant or tuple variant at any depth. */
  predicate Flat(v: Serde.Input)
    decreases v, 0
  {
    match v
    case OptSome(x) => Flat(x)
    case NewtypeStruct(_, x) => Flat(x)
    case NewtypeVariant(_, _, _, x) => Flat(x)
    case Seq(xs) => FlatAll(xs)
    case Tuple(xs) => FlatAll(xs)
    case Map(entries) => FlatEntries(entries)
    case TupleStruct(_, _) => false
    case TupleVariant(_, _, _, _) => false
    case Struct(_, _) => false
    case StructVariant(_, _, _, _) => false
    case _ => true
  }

  predicate FlatAll(xs: seq<Serde.Input>)
    decreases xs
  {
    xs == [] || (FlatAll(xs[..|xs| - 1]) && Flat(xs[|xs| - 1]))
  }

  predicate FlatField(field: (string, Serde.Input))
    decreases field, 1
  {
    Flat(field.1)
  }

  predicate FlatFields(fields: seq<(string, Serde.Input)>)
    decreases fields
  {
    fields == [] || (FlatFields(fields[..|fields| - 1]) && FlatField(fields[|fields| - 1]))
  }

  predicate FlatEntry(kv: (Serde.Input, Serde.Input))
    decreases kv, 2
  {
    Flat(kv.0) && Flat(kv.1)
  }

  predicate FlatEntries(entries: seq<(Serde.Input, Serde.Input)>)
    decreases entries
  {
    entries == [] || (FlatEntries(entries[..|entries| - 1]) && FlatEntry(entries[|entries| - 1]))
  }

  // ---------------------------------------------------------------------------
  // Collections: items in input order, one per element, with the right flag.
  // ---------------------------------------------------------------------------

  /**
    * A sequence, tuple or tuple body has one item per element, in input
    * order: item `i` is element `i`'s encoding, non-associative.
    */
  lemma {:induction false} ElementsInOrder(o: SerializationOptions, symbolOf: Tree -> string, xs: seq<Serde.Input>, s: Session)
    ensures |EncodeElements(o, symbolOf, xs, s).items| == |xs|
    ensures forall i :: 0 <= i < |xs| ==>
      EncodeElements(o, symbolOf, xs, s).items[i] ==
        Item(Encode(o, symbolOf, xs[i], EncodeElements(o, symbolOf, xs[..i], s).after).tree, false)
    decreases xs
  {
    if xs != [] {
      var init := xs[..|xs| - 1];
      ElementsInOrder(o, symbolOf, init, s);
      forall i | 0 <= i < |xs|
        ensures EncodeElements(o, symbolOf, xs, s).items[i] ==
          Item(Encode(o, symbolOf, xs[i], EncodeElements(o, symbolOf, xs[..i], s).after).tree, false)
      {
        if i < |init| {
          assert init[i] == xs[i] && init[..i] == xs[..i];
        } else {
          assert xs[..i] == init;
        }
      }
    }
  }

  /**
    * A struct body has one item per field, in input order: item `i` is
    * Pair(Symbol(field name), field value's encoding), associative.
    */
  lemma {:induction false} FieldsInOrder(o: SerializationOptions, symbolOf: Tree -> string, fields: seq<(string, Serde.Input)>, s: Session)
    ensures |EncodeFields(o, symbolOf, fields, s).items| == |fields|
    ensures forall i :: 0 <= i < |fields| ==>
      EncodeFields(o, symbolOf, fields, s).items[i] ==
        Item(TPair(TSymbol(fields[i].0), Encode(o, symbolOf, fields[i].1, EncodeFields(o, symbolOf, fields[..i], s).after).tree), true)
    decreases fields
  {
    if fields != [] {
      var init := fields[..|fields| - 1];
      FieldsInOrder(o, symbolOf, init, s);
      forall i | 0 <= i < |fields|
        ensures EncodeFields(o, symbolOf, fields, s).items[i] ==
          Item(TPair(TSymbol(fields[i].0), Encode(o, symbolOf, fields[i].1, EncodeFields(o, symbolOf, fields[..i], s).after).tree), true)
      {
        if i < |init| {
          assert init[i] == fields[i] && init[..i] == fields[..i];
        } else {
          assert fields[..i] == init;
        }
      }
    }
  }

  /**
    * A map has one item per entry, in input order: item `i` is
    * Pair(Symbol(converted key), value's encoding), associative, where the
    * value is encoded after its key.
    */
  lemma {:induction false} EntriesInOrder(o: SerializationOptions, symbolOf: Tree -> string, entries: seq<(Serde.Input, Serde.Input)>, s: Session)
    ensures |EncodeEntries(o, symbolOf, entries, s).items| == |entries|
    ensures forall i :: 0 <= i < |entries| ==>
      var before := EncodeEntries(o, symbolOf, entries[..i], s).after;
      var key := Encode(o, symbolOf, entries[i].0, before);
      EncodeEntries(o, symbolOf, entries, s).items[i] ==
        Item(TPair(TSymbol(symbolOf(key.tree)),
                   Encode(o, symbolOf, entries[i].1, KeySession(o, symbolOf, entries[i].0, before)).tree), true)
    decreases entries
  {
    if entries != [] {
      var init := entries[..|entries| - 1];
      EntriesInOrder(o, symbolOf, init, s);
      forall i | 0 <= i < |entries|
        ensures var before := EncodeEntries(o, symbolOf, entries[..i], s).after;
          var key := Encode(o, symbolOf, entries[i].0, before);
          EncodeEntries(o, symbolOf, entries, s).items[i] ==
            Item(TPair(TSymbol(symbolOf(key.tree)),
                       Encode(o, symbolOf, entries[i].1, KeySession(o, symbolOf, entries[i].0, before)).tree), true)
      {
        if i < |init| {
          assert init[i] == entries[i] && init[..i] == entries[..i];
        } else {
          assert entries[..i] == init;
        }
      }
    }
  }

  /** A sequence is the list of its element encodings. */
  lemma SeqIsList(o: SerializationOptions, symbolOf: Tree -> string, xs: seq<Serde.Input>, s: Session)
    ensures var t := Encode(o, symbolOf, Serde.Seq(xs), s).tree;
      t.TList? && |t.items| == |xs| &&
      forall i :: 0 <= i < |xs| ==> !t.items[i].assoc && t.items[i].value == Encode(o, symbolOf, xs[i], EncodeElements(o, symbolOf, xs[..i], s).after).tree
  {
    ElementsInOrder(o, symbolOf, xs, s);
  }

  /** A tuple is the list of its element encodings, exactly as a sequence is. */
  lemma TupleIsList(o: SerializationOptions, symbolOf: Tree -> string, xs: seq<Serde.Input>, s: Session)
    ensures var t := Encode(o, symbolOf, Serde.Tuple(xs), s).tree;
      t.TList? && |t.items| == |xs| &&
      forall i :: 0 <= i < |xs| ==> !t.items[i].assoc && t.items[i].value == Encode(o, symbolOf, xs[i], EncodeElements(o, symbolOf, xs[..i], s).after).tree
    ensures Encode(o, symbolOf, Serde.Tuple(xs), s) == Encode(o, symbolOf, Serde.Seq(xs), s)
  {
    ElementsInOrder(o, symbolOf, xs, s);
  }

  /** A map is the list of its entries as associative pairs keyed by symbols. */
  lemma MapIsListOfPairs(o: SerializationOptions, symbolOf: Tree -> string, entries: seq<(Serde.Input, Serde.Input)>, s: Session)
    ensures var t := Encode(o, symbolOf, Serde.Map(entries), s).tree;
      t.TList? && |t.items| == |entries| &&
      forall i :: 0 <= i < |entries| ==> t.items[i].assoc && t.items[i].value.TPair? && t.items[i].value.left.TSymbol?
  {
    EntriesInOrder(o, symbolOf, entries, s);
  }

  // ---------------------------------------------------------------------------
  // The session: struct_sym and pending_key are overwritten, never cleared.
  // ---------------------------------------------------------------------------

  /** Once set, neither the struct symbol nor the pending key is ever cleared. */
  lemma {:induction false} NeverCleared(o: SerializationOptions, symbolOf: Tree -> string, v: Serde.Input, s: Session)
    ensures s.sym.Some? ==> Encode(o, symbolOf, v, s).after.sym.Some?
    ensures s.key.Some? ==> Encode(o, symbolOf, v, s).after.key.Some?
    decreases v, 0
  {
    match v
    case OptSome(x) => NeverCleared(o, symbolOf, x, s);
    case NewtypeStruct(_, x) => NeverCleared(o, symbolOf, x, s);
    case NewtypeVariant(_, _, _, x) => NeverCleared(o, symbolOf, x, s);
    case Seq(xs) => ElementsNeverClear(o, symbolOf, xs, s);
    case Tuple(xs) => ElementsNeverClear(o, symbolOf, xs, s);
    case TupleStruct(name, xs) => ElementsNeverClear(o, symbolOf, xs, OpenStruct(o, name, s));
    case TupleVariant(name, index, variant, xs) =>
      ElementsNeverClear(o, symbolOf, xs, s.(sym := Some(Discriminant(o, name, index, variant))));
    case Map(entries) => EntriesNeverClear(o, symbolOf, entries, s);
    case Struct(name, fields) => FieldsNeverClear(o, symbolOf, fields, OpenStruct(o, name, s));
    case StructVariant(name, index, variant, fields) =>
      FieldsNeverClear(o, symbolOf, fields, s.(sym := Some(Discriminant(o, name, index, variant))));
    case _ =>
  }

  lemma {:induction false} ElementsNeverClear(o: SerializationOptions, symbolOf: Tree -> string, xs: seq<Serde.Input>, s: Session)
    ensures s.sym.Some? ==> EncodeElements(o, symbolOf, xs, s).after.sym.Some?
    ensures s.key.Some? ==> EncodeElements(o, symbolOf, xs, s).after.key.Some?
    decreases xs
  {
    if xs != [] {
      ElementsNeverClear(o, symbolOf, xs[..|xs| - 1], s);
      NeverCleared(o, symbolOf, xs[|xs| - 1], EncodeElements(o, symbolOf, xs[..|xs| - 1], s).after);
    }
  }

  lemma {:induction false} FieldNeverClears(o: SerializationOptions, symbolOf: Tree -> string, field: (string, Serde.Input), s: Session)
    ensures s.sym.Some? ==> EncodeField(o, symbolOf, field, s).after.sym.Some?
    ensures s.key.Some? ==> EncodeField(o, symbolOf, field, s).after.key.Some?
    decreases field, 1
  {
    NeverCleared(o, symbolOf, field.1, s);
  }

  lemma {:induction false} FieldsNeverClear(o: SerializationOptions, symbolOf: Tree -> string, fields: seq<(string, Serde.Input)>, s: Session)
    ensures s.sym.Some? ==> EncodeFields(o, symbolOf, fields, s).after.sym.Some?
    ensures s.key.Some? ==> EncodeFields(o, symbolOf, fields, s).after.key.Some?
    decreases fields
  {
    if fields != [] {
      FieldsNeverClear(o, symbolOf, fields[..|fields| - 1], s);
      FieldNeverClears(o, symbolOf, fields[|fields| - 1], EncodeFields(o, symbolOf, fields[..|fields| - 1], s).after);
    }
  }

  /** After a map entry the pending key is set, whatever came before. */
  lemma {:induction false} EntryLeavesKey(o: SerializationOptions, symbolOf: Tree -> string, kv: (Serde.Input, Serde.Input), s: Session)
    ensures s.sym.Some? ==> EncodeEntry(o, symbolOf, kv, s).after.sym.Some?
    ensures EncodeEntry(o, symbolOf, kv, s).after.key.Some?
    decreases kv, 2
  {
    NeverCleared(o, symbolOf, kv.0, s);
    NeverCleared(o, symbolOf, kv.1, KeySession(o, symbolOf, kv.0, s));
  }

  lemma {:induction false} EntriesNeverClear(o: SerializationOptions, symbolOf: Tree -> string, entries: seq<(Serde.Input, Serde.Input)>, s: Session)
    ensures s.sym.Some? ==> EncodeEntries(o, symbolOf, entries, s).after.sym.Some?
    ensures s.key.Some? || entries != [] ==> EncodeEntries(o, symbolOf, entries, s).after.key.Some?
    decreases entries
  {
    if entries != [] {
      EntriesNeverClear(o, symbolOf, entries[..|entries| - 1], s);
      EntryLeavesKey(o, symbolOf, entries[|entries| - 1], EncodeEntries(o, symbolOf, entries[..|entries| - 1], s).after);
    }
  }

  /** A non-empty map leaves its last key pending after it is closed. */
  lemma MapLeavesKeyPending(o: SerializationOptions, symbolOf: Tree -> string, entries: seq<(Serde.Input, Serde.Input)>, s: Session)
    requires entries != []
    ensures Encode(o, symbolOf, Serde.Map(entries), s).after.key.Some?
  {
    EntriesNeverClear(o, symbolOf, entries, s);
  }

  /** Values without struct-likes leave the struct symbol as they found it. */
  lemma {:induction false} FlatKeepsSym(o: SerializationOptions, symbolOf: Tree -> string, v: Serde.Input, s: Session)
    requires Flat(v)
    ensures Encode(o, symbolOf, v, s).after.sym == s.sym
    decreases v, 0
  {
    match v
    case OptSome(x) => FlatKeepsSym(o, symbolOf, x, s);
    case NewtypeStruct(_, x) => FlatKeepsSym(o, symbolOf, x, s);
    case NewtypeVariant(_, _, _, x) => FlatKeepsSym(o, symbolOf, x, s);
    case Seq(xs) => FlatElementsKeepSym(o, symbolOf, xs, s);
    case Tuple(xs) => FlatElementsKeepSym(o, symbolOf, xs, s);
    case Map(entries) => FlatEntriesKeepSym(o, symbolOf, entries, s);
    case _ =>
  }

  lemma {:induction false} FlatElementsKeepSym(o: SerializationOptions, symbolOf: Tree -> string, xs: seq<Serde.Input>, s: Session)
    requires FlatAll(xs)
    ensures EncodeElements(o, symbolOf, xs, s).after.sym == s.sym
    decreases xs
  {
    if xs != [] {
      FlatElementsKeepSym(o, symbolOf, xs[..|xs| - 1], s);
      FlatKeepsSym(o, symbolOf, xs[|xs| - 1], EncodeElements(o, symbolOf, xs[..|xs| - 1], s).after);
    }
  }

  lemma {:induction false} FlatFieldKeepsSym(o: SerializationOptions, symbolOf: Tree -> string, field: (string, Serde.Input), s: Session)
    requires FlatField(field)
    ensures EncodeField(o, symbolOf, field, s).after.sym == s.sym
    decreases field, 1
  {
    FlatKeepsSym(o, symbolOf, field.1, s);
  }

  lemma {:induction false} FlatFieldsKeepSym(o: SerializationOptions, symbolOf: Tree -> string, fields: seq<(string, Serde.Input)>, s: Session)
    requires FlatFields(fields)
    ensures EncodeFields(o, symbolOf, fields, s).after.sym == s.sym
    decreases fields
  {
    if fields != [] {
      FlatFieldsKeepSym(o, symbolOf, fields[..|fields| - 1], s);
      FlatFieldKeepsSym(o, symbolOf, fields[|fields| - 1], EncodeFields(o, symbolOf, fields[..|fields| - 1], s).after);
    }
  }

  lemma {:induction false} FlatEntryKeepsSym(o: SerializationOptions, symbolOf: Tree -> string, kv: (Serde.Input, Serde.Input), s: Session)
    requires FlatEntry(kv)
    ensures EncodeEntry(o, symbolOf, kv, s).after.sym == s.sym
    decreases kv, 2
  {
    FlatKeepsSym(o, symbolOf, kv.0, s);
    FlatKeepsSym(o, symbolOf, kv.1, KeySession(o, symbolOf, kv.0, s));
  }

  lemma {:induction false} FlatEntriesKeepSym(o: SerializationOptions, symbolOf: Tree -> string, entries: seq<(Serde.Input, Serde.Input)>, s: Session)
    requires FlatEntries(entries)
    ensures EncodeEntries(o, symbolOf, entries, s).after.sym == s.sym
    decreases entries
  {
    if entries != [] {
      FlatEntriesKeepSym(o, symbolOf, entries[..|entries| - 1], s);
      FlatEntryKeepsSym(o, symbolOf, entries[|entries| - 1], EncodeEntries(o, symbolOf, entries[..|entries| - 1], s).after);
    }
  }

  // ---------------------------------------------------------------------------
  // Struct-like shapes.
  // ---------------------------------------------------------------------------

  /** A tuple variant with flat fields is [discriminant, body]. */
  lemma TupleVariantShape(o: SerializationOptions, symbolOf: Tree -> string, name: string, index: Serde.u32, variant: string,
                          xs: seq<Serde.Input>, s: Session)
    requires FlatAll(xs)
    ensures var d := Discriminant(o, name, index, variant);
      Encode(o, symbolOf, Serde.TupleVariant(name, index, variant, xs), s).tree ==
        TList([Item(d, false), Item(TList(EncodeElements(o, symbolOf, xs, s.(sym := Some(d))).items), false)])
  {
    FlatElementsKeepSym(o, symbolOf, xs, s.(sym := Some(Discriminant(o, name, index, variant))));
  }

  /** A struct variant with flat field values is [discriminant, body]. */
  lemma StructVariantShape(o: SerializationOptions, symbolOf: Tree -> string, name: string, index: Serde.u32, variant: string,
                           fields: seq<(string, Serde.Input)>, s: Session)
    requires FlatFields(fields)
    ensures var d := Discriminant(o, name, index, variant);
      Encode(o, symbolOf, Serde.StructVariant(name, index, variant, fields), s).tree ==
        TList([Item(d, false), Item(TList(EncodeFields(o, symbolOf, fields, s.(sym := Some(d))).items), false)])
  {
    FlatFieldsKeepSym(o, symbolOf, fields, s.(sym := Some(Discriminant(o, name, index, variant))));
  }

  /** With typing included, a struct with flat field values is [Symbol(name), body]. */
  lemma TypedStructShape(o: SerializationOptions, symbolOf: Tree -> string, name: string,
                         fields: seq<(string, Serde.Input)>, s: Session)
    requires o.structTyping == IncludeTyping && FlatFields(fields)
    ensures Encode(o, symbolOf, Serde.Struct(name, fields), s).tree ==
      TList([Item(TSymbol(name), false), Item(TList(EncodeFields(o, symbolOf, fields, s.(sym := Some(TSymbol(name)))).items), false)])
  {
    FlatFieldsKeepSym(o, symbolOf, fields, s.(sym := Some(TSymbol(name))));
  }

  /** With typing excluded and no struct symbol set, a struct is its body alone. */
  lemma UntypedStructShape(o: SerializationOptions, symbolOf: Tree -> string, name: string,
                           fields: seq<(string, Serde.Input)>, s: Session)
    requires o.structTyping == ExcludeTyping && s.sym.None? && FlatFields(fields)
    ensures Encode(o, symbolOf, Serde.Struct(name, fields), s).tree == TList(EncodeFields(o, symbolOf, fields, s).items)
  {
    FlatFieldsKeepSym(o, symbolOf, fields, s);
  }

  /** With typing included, a tuple struct of flat elements is [Symbol(name), body]. */
  lemma TypedTupleStructShape(o: SerializationOptions, symbolOf: Tree -> string, name: string,
                              xs: seq<Serde.Input>, s: Session)
    requires o.structTyping == IncludeTyping && FlatAll(xs)
    ensures Encode(o, symbolOf, Serde.TupleStruct(name, xs), s).tree ==
      TList([Item(TSymbol(name), false), Item(TList(EncodeElements(o, symbolOf, xs, s.(sym := Some(TSymbol(name)))).items), false)])
  {
    FlatElementsKeepSym(o, symbolOf, xs, s.(sym := Some(TSymbol(name))));
  }

  /** With typing excluded and no struct symbol set, a tuple struct is its element list alone. */
  lemma UntypedTupleStructShape(o: SerializationOptions, symbolOf: Tree -> string, name: string,
                                xs: seq<Serde.Input>, s: Session)
    requires o.structTyping == ExcludeTyping && s.sym.None? && FlatAll(xs)
    ensures Encode(o, symbolOf, Serde.TupleStruct(name, xs), s).tree == TList(EncodeElements(o, symbolOf, xs, s).items)
    ensures Encode(o, symbolOf, Serde.TupleStruct(name, xs), s).tree == Encode(o, symbolOf, Serde.Tuple(xs), s).tree
  {
    FlatElementsKeepSym(o, symbolOf, xs, s);
  }

  /**
    * With typing included, a struct whose one field is itself a typed struct
    * of flat fields comes out wrapped in the inner struct's name: the inner
    * opening overwrites the symbol and nothing restores the outer one.
    */
  lemma InnerNameWrapsOuter(o: SerializationOptions, symbolOf: Tree -> string, outer: string, f: string,
                            inner: string, ys: seq<(string, Serde.Input)>, s: Session)
    requires o.structTyping == IncludeTyping && FlatFields(ys)
    ensures var innerTree := TList([Item(TSymbol(inner), false),
                                    Item(TList(EncodeFields(o, symbolOf, ys, s.(sym := Some(TSymbol(inner)))).items), false)]);
      Encode(o, symbolOf, Serde.Struct(outer, [(f, Serde.Struct(inner, ys))]), s).tree ==
        TList([Item(TSymbol(inner), false), Item(TList([Item(TPair(TSymbol(f), innerTree), true)]), false)])
  {
    var s1 := s.(sym := Some(TSymbol(outer)));
    var field := (f, Serde.Struct(inner, ys));
    assert s1.(sym := Some(TSymbol(inner))) == s.(sym := Some(TSymbol(inner)));
    TypedStructShape(o, symbolOf, inner, ys, s1);
    FlatFieldsKeepSym(o, symbolOf, ys, s.(sym := Some(TSymbol(inner))));
    var e := Encode(o, symbolOf, field.1, s1);
    assert e.after.sym == Some(TSymbol(inner));
    assert [field][..0] == [] && [field][0] == field;
    assert EncodeFields(o, symbolOf, [], s1) == EncodedItems([], s1);
    assert EncodeField(o, symbolOf, field, s1) == Encoded(TPair(TSymbol(f), e.tree), e.after);
    assert EncodeFields(o, symbolOf, [field], s1) == EncodedItems([Item(TPair(TSymbol(f), e.tree), true)], e.after);
  }

  /**
    * With typing excluded, a tuple struct encoded while an earlier
    * struct-like's symbol is still set is wrapped in that stale symbol.
    */
  lemma StaleSymbolWraps(o: SerializationOptions, symbolOf: Tree -> string, name: string,
                         xs: seq<Serde.Input>, s: Session)
    requires o.structTyping == ExcludeTyping && s.sym.Some? && FlatAll(xs)
    ensures Encode(o, symbolOf, Serde.TupleStruct(name, xs), s).tree ==
      TList([Item(s.sym.value, false), Item(TList(EncodeElements(o, symbolOf, xs, s).items), false)])
  {
    FlatElementsKeepSym(o, symbolOf, xs, s);
  }

  /**
    * The quirk in one value: in a sequence of a unit-like struct variant
    * followed by an empty untyped struct, the struct comes out wrapped in
    * the variant's discriminant instead of as an empty list.
    */
  lemma VariantSymbolLeaksIntoNextStruct(o: SerializationOptions, symbolOf: Tree -> string, s: Session,
                                         name: string, index: Serde.u32, variant: string, other: string)
    requires o.structTyping == ExcludeTyping
    ensures var d := Discriminant(o, name, index, variant);
      Encode(o, symbolOf, Serde.Seq([Serde.StructVariant(name, index, variant, []), Serde.Struct(other, [])]), s).tree ==
        TList([Item(TList([Item(d, false), Item(TList([]), false)]), false),
               Item(TList([Item(d, false), Item(TList([]), false)]), false)])
  {
    var xs := [Serde.StructVariant(name, index, variant, []), Serde.Struct(other, [])];
    var d := Discriminant(o, name, index, variant);
    ElementsInOrder(o, symbolOf, xs, s);
    var s1 := s.(sym := Some(d));
    assert EncodeFields(o, symbolOf, [], s1) == EncodedItems([], s1);
    var first := Encoded(TList([Item(d, false), Item(TList([]), false)]), s1);
    assert Encode(o, symbolOf, xs[0], s) == first;
    assert xs[..1][..0] == [] && xs[..1][0] == xs[0];
    assert EncodeElements(o, symbolOf, xs[..1], s) == EncodedItems([Item(first.tree, false)], s1);
    assert Encode(o, symbolOf, xs[1], s1) == first;
  }
}
