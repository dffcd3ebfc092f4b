/**
  * The closed set of input shapes that serde presents to a serializer, and
  * the tree the encoder leaves in the store for each of them.
  */
module Serde {

  type u32 = x: int | 0 <= x < 0x1_0000_0000

  /**
    * One value of serde's data model. The eight integer widths share `Int`;
    * a field list pairs each field name with its value, a map entry pairs a
    * key with its value.
    */
  datatype Input =
    | Bool(b: bool)
    | Int(n: int)
    | Char(c: char)
    | Str(s: string)
    | Bytes(bytes: seq<bv8>)
    | OptNone
    | OptSome(inner: Input)
    | Unit
    | UnitStruct(name: string)
    | UnitVariant(name: string, index: u32, variant: string)
    | NewtypeStruct(name: string, inner: Input)
    | NewtypeVariant(name: string, index: u32, variant: string, inner: Input)
    | Seq(elements: seq<Input>)
    | Tuple(elements: seq<Input>)
    | TupleStruct(name: string, elements: seq<Input>)
    | TupleVariant(name: string, index: u32, variant: string, elements: seq<Input>)
    | Map(entries: seq<(Input, Input)>)
    | Struct(name: string, fields: seq<(string, Input)>)
    | StructVariant(name: string, index: u32, variant: string, fields: seq<(string, Input)>)
  {
    /** Whether the value holds further values. */
    predicate IsCompound()
    {
      OptSome? || NewtypeStruct? || NewtypeVariant? || Seq? || Tuple? || TupleStruct? ||
      TupleVariant? || Map? || Struct? || StructVariant?
    }
  }
}

module Encoding {
  import opened Wrappers
  import opened Options
  import opened GarnishStore
  import Serde

  /**
    * The serializer state that survives from one call to the next: the
    * trees that `struct_sym` and `pending_key` point at.
    */
  datatype Session = Session(sym: Option<Tree>, key: Option<Tree>)

  datatype Encoded = Encoded(tree: Tree, after: Session)

  datatype EncodedItems = EncodedItems(items: seq<Item>, after: Session)

  /** The value that identifies an enum variant under the naming policy. */
  function Discriminant(o: SerializationOptions, name: string, index: Serde.u32, variant: string): Tree
  {
    match o.variantName
    case Short => TSymbol(variant)
    case Full => TSymbol(name + "::" + variant)
    case Index => TNumber(index)
  }

  /**
    * What closing a struct-like body yields: the body itself when no struct
    * symbol is set, otherwise the two-item list [symbol, body].
    */
  function StructLike(body: Tree, sym: Option<Tree>): Tree
  {
    match sym
    case None => body
    case Some(t) => TList([Item(t, false), Item(body, false)])
  }

  /** The session after the opening call of a typed struct or tuple struct. */
  function OpenStruct(o: SerializationOptions, name: string, s: Session): Session
  {
    match o.structTyping
    case IncludeTyping => s.(sym := Some(TSymbol(name)))
    case ExcludeTyping => s
  }

  /**
    * The tree the encoder produces for `v` when the session starts as `s`,
    * and the session it leaves behind. `symbolOf` is the store's conversion
    * of a map key into a symbol name.
    */
  function Encode(o: SerializationOptions, symbolOf: Tree -> string, v: Serde.Input, s: Session): Encoded
    decreases v, 0
  {
    match v
    case Bool(b) => Encoded(if b then TTrue else TFalse, s)
    case Int(n) => Encoded(TNumber(n), s)
    case Char(c) => Encoded(TChar(c), s)
    case Str(t) => Encoded(TCharList(t), s)
    case Bytes(b) => Encoded(TByteList(b), s)
    case OptNone => Encoded(if o.optional == UnitSymbol then TSymbol("none") else TUnit, s)
    case OptSome(x) => Encode(o, symbolOf, x, s)
    case Unit => Encoded(TUnit, s)
    case UnitStruct(name) =>
      if o.structTyping == IncludeTyping then Encoded(TList([Item(TSymbol(name), false), Item(TUnit, false)]), s)
      else Encoded(TUnit, s)
    case UnitVariant(name, index, variant) => Encoded(Discriminant(o, name, index, variant), s)
    case NewtypeStruct(_, x) => Encode(o, symbolOf, x, s)
    case NewtypeVariant(name, index, variant, x) =>
      var e := Encode(o, symbolOf, x, s);
      Encoded(TList([Item(Discriminant(o, name, index, variant), false), Item(e.tree, false)]), e.after)
    case Seq(xs) =>
      var es := EncodeElements(o, symbolOf, xs, s);
      Encoded(TList(es.items), es.after)
    case Tuple(xs) =>
      var es := EncodeElements(o, symbolOf, xs, s);
      Encoded(TList(es.items), es.after)
    case TupleStruct(name, xs) =>
      var es := EncodeElements(o, symbolOf, xs, OpenStruct(o, name, s));
      Encoded(StructLike(TList(es.items), es.after.sym), es.after)
    case TupleVariant(name, index, variant, xs) =>
      var es := EncodeElements(o, symbolOf, xs, s.(sym := Some(Discriminant(o, name, index, variant))));
      Encoded(StructLike(TList(es.items), es.after.sym), es.after)
    case Map(entries) =>
      var es := EncodeEntries(o, symbolOf, entries, s);
      Encoded(TList(es.items), es.after)
    case Struct(name, fields) =>
      var es := EncodeFields(o, symbolOf, fields, OpenStruct(o, name, s));
      Encoded(StructLike(TList(es.items), es.after.sym), es.after)
    case StructVariant(name, index, variant, fields) =>
      var es := EncodeFields(o, symbolOf, fields, s.(sym := Some(Discriminant(o, name, index, variant))));
      Encoded(StructLike(TList(es.items), es.after.sym), es.after)
  }

  /** Positional items: each element's tree, flagged non-associative. */
  function EncodeElements(o: SerializationOptions, symbolOf: Tree -> string, xs: seq<Serde.Input>, s: Session): EncodedItems
    decreases xs
  {
    if xs == [] then EncodedItems([], s)
    else
      var prev := EncodeElements(o, symbolOf, xs[..|xs| - 1], s);
      var e := Encode(o, symbolOf, xs[|xs| - 1], prev.after);
      EncodedItems(prev.items + [Item(e.tree, false)], e.after)
  }

  /** The item one field adds: Pair(Symbol(field name), value), flagged associative. */
  function EncodeField(o: SerializationOptions, symbolOf: Tree -> string, field: (string, Serde.Input), s: Session): Encoded
    decreases field, 1
  {
    var e := Encode(o, symbolOf, field.1, s);
    Encoded(TPair(TSymbol(field.0), e.tree), e.after)
  }

  function EncodeFields(o: SerializationOptions, symbolOf: Tree -> string, fields: seq<(string, Serde.Input)>, s: Session): EncodedItems
    decreases fields
  {
    if fields == [] then EncodedItems([], s)
    else
      var prev := EncodeFields(o, symbolOf, fields[..|fields| - 1], s);
      var e := EncodeField(o, symbolOf, fields[|fields| - 1], prev.after);
      EncodedItems(prev.items + [Item(e.tree, true)], e.after)
  }

  /** The session after a map key: the key's own session, with the converted key pending. */
  function KeySession(o: SerializationOptions, symbolOf: Tree -> string, k: Serde.Input, s: Session): Session
    decreases k, 1
  {
    var ek := Encode(o, symbolOf, k, s);
    ek.after.(key := Some(TSymbol(symbolOf(ek.tree))))
  }

  /** The item one map entry adds: Pair(converted key symbol, value), flagged associative. */
  function EncodeEntry(o: SerializationOptions, symbolOf: Tree -> string, kv: (Serde.Input, Serde.Input), s: Session): Encoded
    decreases kv, 2
  {
    var ks := KeySession(o, symbolOf, kv.0, s);
    var ev := Encode(o, symbolOf, kv.1, ks);
    Encoded(TPair(ks.key.value, ev.tree), ev.after)
  }

  function EncodeEntries(o: SerializationOptions, symbolOf: Tree -> string, entries: seq<(Serde.Input, Serde.Input)>, s: Session): EncodedItems
    decreases entries
  {
    if entries == [] then EncodedItems([], s)
    else
      var prev := EncodeEntries(o, symbolOf, entries[..|entries| - 1], s);
      var e := EncodeEntry(o, symbolOf, entries[|entries| - 1], prev.after);
      EncodedItems(prev.items + [Item(e.tree, true)], e.after)
  }

  /** Items of the first `i + 1` elements: the items of the first `i`, then element `i`. */
  lemma ElementsStep(o: SerializationOptions, symbolOf: Tree -> string, xs: seq<Serde.Input>, s: Session, i: nat)
    requires i < |xs|
    ensures var prev := EncodeElements(o, symbolOf, xs[..i], s);
            var e := Encode(o, symbolOf, xs[i], prev.after);
            EncodeElements(o, symbolOf, xs[..i + 1], s) == EncodedItems(prev.items + [Item(e.tree, false)], e.after)
  {
    assert xs[..i + 1][..i] == xs[..i];
  }

  lemma FieldsStep(o: SerializationOptions, symbolOf: Tree -> string, fields: seq<(string, Serde.Input)>, s: Session, i: nat)
    requires i < |fields|
    ensures var prev := EncodeFields(o, symbolOf, fields[..i], s);
            var e := Encode(o, symbolOf, fields[i].1, prev.after);
            EncodeFields(o, symbolOf, fields[..i + 1], s) == EncodedItems(prev.items + [Item(TPair(TSymbol(fields[i].0), e.tree), true)], e.after)
  {
    assert fields[..i + 1][..i] == fields[..i];
  }

  lemma EntriesStep(o: SerializationOptions, symbolOf: Tree -> string, entries: seq<(Serde.Input, Serde.Input)>, s: Session, i: nat)
    requires i < |entries|
    ensures var prev := EncodeEntries(o, symbolOf, entries[..i], s);
            var e := EncodeEntry(o, symbolOf, entries[i], prev.after);
            EncodeEntries(o, symbolOf, entries[..i + 1], s) == EncodedItems(prev.items + [Item(e.tree, true)], e.after)
  {
    assert entries[..i + 1][..i] == entries[..i];
  }
}
