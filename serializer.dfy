/**
  * `GarnishDataSerializer` (src/serializer.rs): walks one serde value and
  * leaves exactly one handle in the store. Its only state besides the store
  * and the options is `structSym` and `pendingKey`, which its methods
  * overwrite and never clear.
  */
module Serializer {
  import opened Wrappers
  import opened Options
  import opened Errors
  import opened GarnishStore
  import opened Encoding
  import Serde

  type Error = SerializationError<StoreError>

  const NoKeyMessage: string := "No key when serializing value for map."

  class GarnishDataSerializer {
    const data: Store
    var dataAddr: Option<Handle>
    var structSym: Option<Handle>
    var pendingKey: Option<Handle>
    const options: SerializationOptions

    ghost predicate Valid()
      reads this, data
    {
      data.Valid() && dataAddr == None &&
      (structSym.Some? ==> structSym.value < |data.heap|) &&
      (pendingKey.Some? ==> pendingKey.value < |data.heap|)
    }

    /** The trees that `structSym` and `pendingKey` point at. */
    ghost function State(): Session
      reads this, data
      requires Valid()
    {
      Session(
        if structSym.Some? then Some(Reify(data.heap, structSym.value)) else None,
        if pendingKey.Some? then Some(Reify(data.heap, pendingKey.value)) else None)
    }

    /** `new`: a session with the default options. */
    constructor (data: Store)
      requires data.Valid()
      ensures Valid() && this.data == data && options == Default()
      ensures structSym == None && pendingKey == None
    {
      this.data := data;
      dataAddr := None;
      options := Default();
      structSym := None;
      pendingKey := None;
    }

    /** `new_with_options`. */
    constructor WithOptions(data: Store, options: SerializationOptions)
      requires data.Valid()
      ensures Valid() && this.data == data && this.options == options
      ensures structSym == None && pendingKey == None
    {
      this.data := data;
      dataAddr := None;
      structSym := None;
      pendingKey := None;
      this.options := options;
    }

    /** `data_addr`: nothing ever sets it. */
    function DataAddr(): (r: Option<Handle>)
      reads this, data
      requires Valid()
      ensures r.None?
    {
      dataAddr
    }

    /** Writes a number; every integer width is converted the same way. */
    method AddConvertibleNumber(n: int) returns (r: Result<Handle, Error>)
      requires Valid()
      modifies data
      ensures Valid() && Grows(old(data.heap), data.heap)
      ensures r.Ok? ==> r.value < |data.heap| && Reify(data.heap, r.value) == TNumber(n)
      ensures r.Ok? ==> data.Partials() == old(data.Partials()) && State() == old(State())
      ensures r.Err? ==> r.error == New(Refused)
      ensures data.reliable ==> r.Ok?
    {
      var a := data.AddNumber(n);
      r := OrElseWrap(a);
    }

    method SerializeBool(v: bool) returns (r: Result<Handle, Error>)
      requires Valid()
      modifies data
      ensures Valid() && Grows(old(data.heap), data.heap)
      ensures r.Ok? ==> r.value < |data.heap| && Reify(data.heap, r.value) == (if v then TTrue else TFalse)
      ensures r.Ok? ==> data.Partials() == old(data.Partials()) && State() == old(State())
      ensures r.Err? ==> r.error == New(Refused)
      ensures data.reliable ==> r.Ok?
    {
      var a;
      if v {
        a := data.AddTrue();
      } else {
        a := data.AddFalse();
      }
      r := OrElseWrap(a);
    }

    method SerializeChar(c: char) returns (r: Result<Handle, Error>)
      requires Valid()
      modifies data
      ensures Valid() && Grows(old(data.heap), data.heap)
      ensures r.Ok? ==> r.value < |data.heap| && Reify(data.heap, r.value) == TChar(c)
      ensures r.Ok? ==> data.Partials() == old(data.Partials()) && State() == old(State())
      ensures r.Err? ==> r.error == New(Refused)
      ensures data.reliable ==> r.Ok?
    {
      var a := data.AddChar(c);
      r := OrElseWrap(a);
    }

    /** Builds a char list one character at a time, in order. */
    method SerializeStr(v: string) returns (r: Result<Handle, Error>)
      requires Valid()
      modifies data
      ensures Valid() && Grows(old(data.heap), data.heap)
      ensures r.Ok? ==> r.value < |data.heap| && Reify(data.heap, r.value) == TCharList(v)
      ensures r.Ok? ==> data.Partials() == old(data.Partials()) && State() == old(State())
      ensures r.Err? ==> r.error == New(Refused)
      ensures data.reliable ==> r.Ok?
    {
      var s := data.StartCharList();
      if s.Err? {
        return WrapErr(s.error);
      }
      var i := 0;
      while i < |v|
        invariant 0 <= i <= |v|
        invariant data.Valid() && data.heap == old(data.heap)
        invariant data.open == old(data.open) + [CharsOpen(v[..i])]
      {
        var a := data.AddToCharList(v[i]);
        if a.Err? {
          return WrapErr(a.error);
        }
        assert v[..i + 1] == v[..i] + [v[i]];
        i := i + 1;
      }
      assert v[..i] == v;
      assert data.Partials() == old(data.Partials()) + [PartialChars(v)] by {
        assert data.open[..|data.open| - 1] == old(data.open);
      }
      var e := data.EndCharList();
      r := OrElseWrap(e);
    }

    /** Builds a byte list one byte at a time, in order. */
    method SerializeBytes(v: seq<bv8>) returns (r: Result<Handle, Error>)
      requires Valid()
      modifies data
      ensures Valid() && Grows(old(data.heap), data.heap)
      ensures r.Ok? ==> r.value < |data.heap| && Reify(data.heap, r.value) == TByteList(v)
      ensures r.Ok? ==> data.Partials() == old(data.Partials()) && State() == old(State())
      ensures r.Err? ==> r.error == New(Refused)
      ensures data.reliable ==> r.Ok?
    {
      var s := data.StartByteList();
      if s.Err? {
        return WrapErr(s.error);
      }
      var i := 0;
      while i < |v|
        invariant 0 <= i <= |v|
        invariant data.Valid() && data.heap == old(data.heap)
        invariant data.open == old(data.open) + [BytesOpen(v[..i])]
      {
        var a := data.AddToByteList(v[i]);
        if a.Err? {
          return WrapErr(a.error);
        }
        assert v[..i + 1] == v[..i] + [v[i]];
        i := i + 1;
      }
      assert v[..i] == v;
      assert data.Partials() == old(data.Partials()) + [PartialBytes(v)] by {
        assert data.open[..|data.open| - 1] == old(data.open);
      }
      var e := data.EndByteList();
      r := OrElseWrap(e);
    }

    /** `None` is the symbol `none` under `UnitSymbol` and Unit under `UnitValue`. */
    method SerializeNone() returns (r: Result<Handle, Error>)
      requires Valid()
      modifies data
      ensures Valid() && Grows(old(data.heap), data.heap)
      ensures r.Ok? && options.optional == UnitSymbol ==> r.value < |data.heap| && Reify(data.heap, r.value) == TSymbol("none")
      ensures r.Ok? && options.optional == UnitValue ==> r.value < |data.heap| && Reify(data.heap, r.value) == TUnit
      ensures r.Ok? ==> data.Partials() == old(data.Partials()) && State() == old(State())
      ensures r.Err? ==> r.error == New(Refused)
      ensures data.reliable ==> r.Ok?
    {
      match options.optional
      case UnitSymbol =>
        var a := data.ParseAddSymbol("none");
        r := OrElseWrap(a);
      case UnitValue =>
        var a := data.AddUnit();
        r := OrElseWrap(a);
    }

    /** `Some(x)` is written as `x` itself, with no wrapper, under either policy. */
    method SerializeSome(x: Serde.Input) returns (r: Result<Handle, Error>)
      requires Valid()
      modifies this, data
      ensures Valid() && Grows(old(data.heap), data.heap)
      ensures r.Ok? ==> r.value < |data.heap| && data.Partials() == old(data.Partials())
      ensures r.Ok? ==> Reify(data.heap, r.value) == Encode(options, data.symbolOf, x, old(State())).tree
      ensures r.Ok? ==> State() == Encode(options, data.symbolOf, x, old(State())).after
      ensures r.Err? ==> r.error == New(Refused)
      ensures data.reliable ==> r.Ok?
      decreases x, 2
    {
      r := Serialize(x);
    }

    method SerializeUnit() returns (r: Result<Handle, Error>)
      requires Valid()
      modifies data
      ensures Valid() && Grows(old(data.heap), data.heap)
      ensures r.Ok? ==> r.value < |data.heap| && Reify(data.heap, r.value) == TUnit
      ensures r.Ok? ==> data.Partials() == old(data.Partials()) && State() == old(State())
      ensures r.Err? ==> r.error == New(Refused)
      ensures data.reliable ==> r.Ok?
    {
      var a := data.AddUnit();
      r := OrElseWrap(a);
    }

    /** A unit struct is Unit, or the list [Symbol(name), Unit] when typing is included. */
    method SerializeUnitStruct(name: string) returns (r: Result<Handle, Error>)
      requires Valid()
      modifies data
      ensures Valid() && Grows(old(data.heap), data.heap)
      ensures r.Ok? && options.structTyping == ExcludeTyping ==>
        r.value < |data.heap| && Reify(data.heap, r.value) == TUnit
      ensures r.Ok? && options.structTyping == IncludeTyping ==>
        r.value < |data.heap| && Reify(data.heap, r.value) == TList([Item(TSymbol(name), false), Item(TUnit, false)])
      ensures r.Ok? ==> data.Partials() == old(data.Partials()) && State() == old(State())
      ensures r.Err? ==> r.error == New(Refused)
      ensures data.reliable ==> r.Ok?
    {
      match options.structTyping
      case ExcludeTyping =>
        var a := data.AddUnit();
        r := OrElseWrap(a);
      case IncludeTyping =>
        var n := data.ParseAddSymbol(name);
        if n.Err? {
          return WrapErr(n.error);
        }
        ghost var h1 := data.heap;
        var u := data.AddUnit();
        if u.Err? {
          return WrapErr(u.error);
        }
        GrowsTransitive(old(data.heap), h1, data.heap);
        // the capacity hint is one although two items follow
        r := ListOfTwo(n.value, u.value, 1);
        GrowsTransitive(old(data.heap), h1, data.heap);
    }

    /** A fresh two-item list [first, second], both non-associative. */
    method ListOfTwo(first: Handle, second: Handle, hint: nat) returns (r: Result<Handle, Error>)
      requires Valid() && first < |data.heap| && second < |data.heap|
      modifies data
      ensures Valid() && Grows(old(data.heap), data.heap)
      ensures r.Ok? ==>
        r.value < |data.heap| &&
          Reify(data.heap, r.value) == TList([Item(Reify(old(data.heap), first), false), Item(Reify(old(data.heap), second), false)])
      ensures r.Ok? ==> data.Partials() == old(data.Partials()) && State() == old(State())
      ensures r.Err? ==> r.error == New(Refused)
      ensures data.reliable ==> r.Ok?
    {
      ghost var p0 := data.Partials();
      GrowsByAppending(data.heap, data.heap);
      var s := data.StartList(hint);
      if s.Err? {
        return WrapErr(s.error);
      }
      assert Pop(data.Partials()) == p0 && Top(data.Partials()).items == [] by {
        assert data.Partials() == p0 + [PartialList([])];
      }
      ghost var h := data.heap;
      r := PushTwoAndEnd(first, second);
      assert r.Ok? ==> Reify(data.heap, r.value) == TList([Item(Reify(h, first), false), Item(Reify(h, second), false)]) by {
        var items := [Item(Reify(h, first), false), Item(Reify(h, second), false)];
        assert [] + items == items;
      }
    }

    /** Appends `first` then `second`, both non-associative, to the open list and closes it. */
    method PushTwoAndEnd(first: Handle, second: Handle) returns (r: Result<Handle, Error>)
      requires Valid() && first < |data.heap| && second < |data.heap|
      modifies data
      ensures Valid() && Grows(old(data.heap), data.heap)
      ensures r.Ok? ==> TopIsList(old(data.Partials())) && r.value < |data.heap|
      ensures r.Ok? ==>
        Reify(data.heap, r.value) ==
          TList(Top(old(data.Partials())).items + [Item(Reify(old(data.heap), first), false), Item(Reify(old(data.heap), second), false)])
      ensures r.Ok? ==> data.Partials() == Pop(old(data.Partials())) && State() == old(State())
      ensures r.Err? ==> IsStoreFailure(r.error)
      ensures r.Err? && TopIsList(old(data.Partials())) ==> r.error == New(Refused)
      ensures data.reliable && TopIsList(old(data.Partials())) ==> r.Ok?
    {
      ghost var p0 := data.Partials();
      GrowsByAppending(data.heap, data.heap);
      var a1 := data.AddToList(first, false);
      if a1.Err? {
        return WrapErr(a1.error);
      }
      ghost var items := Top(p0).items + [Item(Reify(data.heap, first), false)];
      ghost var p1 := Pop(p0) + [PartialList(items)];
      assert Pop(p1) == Pop(p0) && Top(p1) == PartialList(items);
      var a2 := data.AddToList(second, false);
      if a2.Err? {
        return WrapErr(a2.error);
      }
      assert items + [Item(Reify(data.heap, second), false)] ==
        Top(p0).items + [Item(Reify(data.heap, first), false), Item(Reify(data.heap, second), false)];
      var e := data.EndList();
      r := OrElseWrap(e);
    }

    /** The discriminant of a variant: `Enum::Variant`, `Variant`, or the variant's index. */
    method SerializeUnitVariant(name: string, index: Serde.u32, variant: string) returns (r: Result<Handle, Error>)
      requires Valid()
      modifies data
      ensures Valid() && Grows(old(data.heap), data.heap)
      ensures r.Ok? ==> r.value < |data.heap|
      ensures r.Ok? && options.variantName == Full ==> Reify(data.heap, r.value) == TSymbol(name + "::" + variant)
      ensures r.Ok? && options.variantName == Short ==> Reify(data.heap, r.value) == TSymbol(variant)
      ensures r.Ok? && options.variantName == Index ==> Reify(data.heap, r.value) == TNumber(index)
      ensures r.Ok? ==> data.Partials() == old(data.Partials()) && State() == old(State())
      ensures r.Err? ==> r.error == New(Refused)
      ensures data.reliable ==> r.Ok?
    {
      match options.variantName
      case Short =>
        var a := data.ParseAddSymbol(variant);
        r := OrElseWrap(a);
      case Full =>
        var a := data.ParseAddSymbol(name + "::" + variant);
        r := OrElseWrap(a);
      case Index =>
        var a := data.AddNumber(index);
        r := OrElseWrap(a);
    }

    /** A newtype struct is written as its content. */
    method SerializeNewtypeStruct(name: string, x: Serde.Input) returns (r: Result<Handle, Error>)
      requires Valid()
      modifies this, data
      ensures Valid() && Grows(old(data.heap), data.heap)
      ensures r.Ok? ==> r.value < |data.heap| && data.Partials() == old(data.Partials())
      ensures r.Ok? ==> Reify(data.heap, r.value) == Encode(options, data.symbolOf, x, old(State())).tree
      ensures r.Ok? ==> State() == Encode(options, data.symbolOf, x, old(State())).after
      ensures r.Err? ==> r.error == New(Refused)
      ensures data.reliable ==> r.Ok?
      decreases x, 2
    {
      r := Serialize(x);
    }

    /** A newtype variant is the two-item list [discriminant, content]. */
    method SerializeNewtypeVariant(name: string, index: Serde.u32, variant: string, x: Serde.Input)
      returns (r: Result<Handle, Error>)
      requires Valid()
      modifies this, data
      ensures Valid() && Grows(old(data.heap), data.heap)
      ensures r.Ok? ==> r.value < |data.heap| && data.Partials() == old(data.Partials())
      ensures r.Ok? ==>
        Reify(data.heap, r.value) ==
          TList([Item(Discriminant(options, name, index, variant), false),
                 Item(Encode(options, data.symbolOf, x, old(State())).tree, false)])
      ensures r.Ok? ==> State() == Encode(options, data.symbolOf, x, old(State())).after
      ensures r.Err? ==> r.error == New(Refused)
      ensures data.reliable ==> r.Ok?
      decreases x, 3
    {
      ghost var p0 := data.Partials();
      var s := data.StartList(1);
      if s.Err? {
        return WrapErr(s.error);
      }
      PushThenPop(p0, PartialList([]));
      r := DiscriminantThenValue(name, index, variant, x);
    }

    /** The rest of a newtype variant once its list is open: discriminant, content, `end`. */
    method DiscriminantThenValue(name: string, index: Serde.u32, variant: string, x: Serde.Input)
      returns (r: Result<Handle, Error>)
      requires Valid() && TopIsList(data.Partials()) && Top(data.Partials()).items == []
      modifies this, data
      ensures Valid() && Grows(old(data.heap), data.heap)
      ensures r.Ok? ==> r.value < |data.heap| && data.Partials() == Pop(old(data.Partials()))
      ensures r.Ok? ==>
        Reify(data.heap, r.value) ==
          TList([Item(Discriminant(options, name, index, variant), false),
                 Item(Encode(options, data.symbolOf, x, old(State())).tree, false)])
      ensures r.Ok? ==> State() == Encode(options, data.symbolOf, x, old(State())).after
      ensures r.Err? ==> r.error == New(Refused)
      ensures data.reliable ==> r.Ok?
      decreases x, 2
    {
      ghost var p0 := data.Partials();
      var sym := SerializeUnitVariant(name, index, variant);
      if sym.Err? {
        return Err(sym.error);
      }
      ghost var h1 := data.heap;
      var value := Serialize(x);
      GrowsTransitive(old(data.heap), h1, data.heap);
      if value.Err? {
        return Err(value.error);
      }
      assert Reify(data.heap, sym.value) == Discriminant(options, name, index, variant);
      ghost var h2 := data.heap;
      ghost var items := [Item(Reify(h2, sym.value), false), Item(Reify(h2, value.value), false)];
      r := PushTwoAndEnd(sym.value, value.value);
      GrowsTransitive(old(data.heap), h2, data.heap);
      assert r.Ok? ==> Reify(data.heap, r.value) == TList(items) by {
        assert [] + items == items;
      }
    }

    /** Opens the list of a sequence; the length is only a capacity hint. */
    method SerializeSeq(len: Option<nat>) returns (r: Result<(), Error>)
      requires Valid()
      modifies data
      ensures Valid() && data.heap == old(data.heap) && State() == old(State())
      ensures r.Ok? ==> data.Partials() == old(data.Partials()) + [PartialList([])]
      ensures r.Err? ==> data.Partials() == old(data.Partials()) && r.error == New(Refused)
      ensures data.reliable ==> r.Ok?
    {
      var s := data.StartList(if len.Some? then len.value else 0);
      r := OrElseWrap(s);
    }

    method SerializeTuple(len: nat) returns (r: Result<(), Error>)
      requires Valid()
      modifies data
      ensures Valid() && data.heap == old(data.heap) && State() == old(State())
      ensures r.Ok? ==> data.Partials() == old(data.Partials()) + [PartialList([])]
      ensures r.Err? ==> data.Partials() == old(data.Partials()) && r.error == New(Refused)
      ensures data.reliable ==> r.Ok?
    {
      r := SerializeSeq(Some(len));
    }

    /** Opens a tuple struct; with typing included, the struct symbol becomes its name. */
    method SerializeTupleStruct(name: string, len: nat) returns (r: Result<(), Error>)
      requires Valid()
      modifies this, data
      ensures Valid() && Grows(old(data.heap), data.heap)
      ensures r.Ok? ==> data.Partials() == old(data.Partials()) + [PartialList([])]
      ensures r.Ok? && options.structTyping == IncludeTyping ==> State() == Session(Some(TSymbol(name)), old(State()).key)
      ensures r.Ok? && options.structTyping == ExcludeTyping ==> State() == old(State())
      ensures r.Err? ==> r.error == New(Refused)
      ensures data.reliable ==> r.Ok?
    {
      if options.structTyping == IncludeTyping {
        var n := data.ParseAddSymbol(name);
        if n.Err? {
          return WrapErr(n.error);
        }
        structSym := Some(n.value);
      }
      r := SerializeSeq(Some(len));
    }

    /** Opens a tuple variant; the struct symbol becomes the discriminant. */
    method SerializeTupleVariant(name: string, index: Serde.u32, variant: string, len: nat) returns (r: Result<(), Error>)
      requires Valid()
      modifies this, data
      ensures Valid() && Grows(old(data.heap), data.heap)
      ensures r.Ok? ==> data.Partials() == old(data.Partials()) + [PartialList([])]
      ensures r.Ok? ==> State() == Session(Some(Discriminant(options, name, index, variant)), old(State()).key)
      ensures r.Err? ==> r.error == New(Refused)
      ensures data.reliable ==> r.Ok?
    {
      var d := SerializeUnitVariant(name, index, variant);
      if d.Err? {
        return Err(d.error);
      }
      structSym := Some(d.value);
      r := SerializeSeq(Some(len));
    }

    method SerializeMap(len: Option<nat>) returns (r: Result<(), Error>)
      requires Valid()
      modifies data
      ensures Valid() && data.heap == old(data.heap) && State() == old(State())
      ensures r.Ok? ==> data.Partials() == old(data.Partials()) + [PartialList([])]
      ensures r.Err? ==> data.Partials() == old(data.Partials()) && r.error == New(Refused)
      ensures data.reliable ==> r.Ok?
    {
      r := SerializeSeq(len);
    }

    /** Opens a struct; with typing included, the struct symbol becomes its name. */
    method SerializeStruct(name: string, len: nat) returns (r: Result<(), Error>)
      requires Valid()
      modifies this, data
      ensures Valid() && Grows(old(data.heap), data.heap)
      ensures r.Ok? ==> data.Partials() == old(data.Partials()) + [PartialList([])]
      ensures r.Ok? && options.structTyping == IncludeTyping ==> State() == Session(Some(TSymbol(name)), old(State()).key)
      ensures r.Ok? && options.structTyping == ExcludeTyping ==> State() == old(State())
      ensures r.Err? ==> r.error == New(Refused)
      ensures data.reliable ==> r.Ok?
    {
      if options.structTyping == IncludeTyping {
        var n := data.ParseAddSymbol(name);
        if n.Err? {
          return WrapErr(n.error);
        }
        structSym := Some(n.value);
      }
      r := SerializeSeq(Some(len));
    }

    /** Opens a struct variant; the struct symbol becomes the discriminant. */
    method SerializeStructVariant(name: string, index: Serde.u32, variant: string, len: nat) returns (r: Result<(), Error>)
      requires Valid()
      modifies this, data
      ensures Valid() && Grows(old(data.heap), data.heap)
      ensures r.Ok? ==> data.Partials() == old(data.Partials()) + [PartialList([])]
      ensures r.Ok? ==> State() == Session(Some(Discriminant(options, name, index, variant)), old(State()).key)
      ensures r.Err? ==> r.error == New(Refused)
      ensures data.reliable ==> r.Ok?
    {
      var d := SerializeUnitVariant(name, index, variant);
      if d.Err? {
        return Err(d.error);
      }
      structSym := Some(d.value);
      r := SerializeSeq(Some(len));
    }

    /**
      * Appends the encoding of `x` to the open list, non-associative. Shared by
      * sequences, tuples, tuple structs and tuple variants.
      */
    method SerializeElement(x: Serde.Input) returns (r: Result<(), Error>)
      requires Valid()
      modifies this, data
      ensures Valid() && Grows(old(data.heap), data.heap)
      ensures r.Ok? ==>
        TopIsList(old(data.Partials())) &&
          data.Partials() == Pop(old(data.Partials())) +
            [PartialList(Top(old(data.Partials())).items + [Item(Encode(options, data.symbolOf, x, old(State())).tree, false)])]
      ensures r.Ok? ==> State() == Encode(options, data.symbolOf, x, old(State())).after
      ensures r.Err? ==> IsStoreFailure(r.error)
      ensures r.Err? && TopIsList(old(data.Partials())) ==> r.error == New(Refused)
      ensures data.reliable && TopIsList(old(data.Partials())) ==> r.Ok?
      decreases x, 2
    {
      var a := Serialize(x);
      if a.Err? {
        return Err(a.error);
      }
      var l := data.AddToList(a.value, false);
      r := OrElseWrap(l);
    }

    /** Encodes a map key, converts it to a symbol and keeps it as the pending key. */
    method SerializeKey(k: Serde.Input) returns (r: Result<(), Error>)
      requires Valid()
      modifies this, data
      ensures Valid() && Grows(old(data.heap), data.heap)
      ensures r.Ok? ==> data.Partials() == old(data.Partials()) && pendingKey.Some?
      ensures r.Ok? ==> State() == KeySession(options, data.symbolOf, k, old(State()))
      ensures r.Err? ==> r.error == New(Refused)
      ensures data.reliable ==> r.Ok?
      decreases k, 2
    {
      ghost var ek := Encode(options, data.symbolOf, k, State());
      assert KeySession(options, data.symbolOf, k, State()) == ek.after.(key := Some(TSymbol(data.symbolOf(ek.tree))));
      var v := Serialize(k);
      if v.Err? {
        return Err(v.error);
      }
      ghost var s1 := State();
      ghost var h := data.heap;
      var s := data.AddSymbolFrom(v.value);
      GrowsTransitive(old(data.heap), h, data.heap);
      if s.Err? {
        return WrapErr(s.error);
      }
      assert State() == s1;
      pendingKey := Some(s.value);
      r := Ok(());
    }

    /**
      * Appends Pair(pending key, encoding of `x`) to the open list, associative.
      * Without a pending key it fails with a message and changes nothing.
      */
    method SerializeValue(x: Serde.Input) returns (r: Result<(), Error>)
      requires Valid()
      modifies this, data
      ensures Valid() && Grows(old(data.heap), data.heap)
      ensures old(pendingKey).None? ==>
        r == Err(FromStr(NoKeyMessage)) &&
          data.heap == old(data.heap) && data.open == old(data.open) && State() == old(State())
      ensures r.Ok? ==>
        old(pendingKey).Some? && TopIsList(old(data.Partials())) &&
          data.Partials() == Pop(old(data.Partials())) +
            [PartialList(Top(old(data.Partials())).items +
                         [Item(TPair(old(State()).key.value, Encode(options, data.symbolOf, x, old(State())).tree), true)])]
      ensures r.Ok? ==> State() == Encode(options, data.symbolOf, x, old(State())).after
      ensures r.Err? && old(pendingKey).Some? ==> IsStoreFailure(r.error)
      ensures r.Err? && old(pendingKey).Some? && TopIsList(old(data.Partials())) ==> r.error == New(Refused)
      ensures data.reliable && old(pendingKey).Some? && TopIsList(old(data.Partials())) ==> r.Ok?
      decreases x, 2
    {
      match pendingKey
      case None =>
        r := Err(FromStr(NoKeyMessage));
      case Some(key) =>
        ghost var k0 := Reify(data.heap, key);
        var val := Serialize(x);
        if val.Err? {
          return Err(val.error);
        }
        assert Reify(data.heap, key) == k0;
        ghost var h := data.heap;
        r := PushPair(key, val.value);
        GrowsTransitive(old(data.heap), h, data.heap);
    }

    /** Appends Pair(left, right), associative, to the open list. */
    method PushPair(left: Handle, right: Handle) returns (r: Result<(), Error>)
      requires Valid() && left < |data.heap| && right < |data.heap|
      modifies data
      ensures Valid() && Grows(old(data.heap), data.heap)
      ensures r.Ok? ==>
        TopIsList(old(data.Partials())) &&
          data.Partials() == Pop(old(data.Partials())) +
            [PartialList(Top(old(data.Partials())).items + [Item(TPair(Reify(old(data.heap), left), Reify(old(data.heap), right)), true)])]
      ensures r.Ok? ==> State() == old(State())
      ensures r.Err? ==> IsStoreFailure(r.error)
      ensures r.Err? && TopIsList(old(data.Partials())) ==> r.error == New(Refused)
      ensures data.reliable && TopIsList(old(data.Partials())) ==> r.Ok?
    {
      ghost var p0 := data.Partials();
      var p := data.AddPair(left, right);
      if p.Err? {
        return WrapErr(p.error);
      }
      assert data.Partials() == p0;
      var l := data.AddToList(p.value, true);
      r := OrElseWrap(l);
    }

    /**
      * Appends Pair(Symbol(key), encoding of `x`) to the open list, associative.
      * Shared by structs and struct variants.
      */
    method SerializeField(key: string, x: Serde.Input) returns (r: Result<(), Error>)
      requires Valid()
      modifies this, data
      ensures Valid() && Grows(old(data.heap), data.heap)
      ensures r.Ok? ==>
        TopIsList(old(data.Partials())) &&
          data.Partials() == Pop(old(data.Partials())) +
            [PartialList(Top(old(data.Partials())).items +
                         [Item(TPair(TSymbol(key), Encode(options, data.symbolOf, x, old(State())).tree), true)])]
      ensures r.Ok? ==> State() == Encode(options, data.symbolOf, x, old(State())).after
      ensures r.Err? ==> IsStoreFailure(r.error)
      ensures r.Err? && TopIsList(old(data.Partials())) ==> r.error == New(Refused)
      ensures data.reliable && TopIsList(old(data.Partials())) ==> r.Ok?
      decreases x, 2
    {
      ghost var s0 := State();
      var k := data.ParseAddSymbol(key);
      if k.Err? {
        return WrapErr(k.error);
      }
      assert State() == s0;
      ghost var h1 := data.heap;
      var v := Serialize(x);
      GrowsTransitive(old(data.heap), h1, data.heap);
      if v.Err? {
        return Err(v.error);
      }
      assert Reify(data.heap, k.value) == TSymbol(key);
      ghost var h2 := data.heap;
      r := PushPair(k.value, v.value);
      GrowsTransitive(old(data.heap), h2, data.heap);
    }

    /** Closes the open list of a sequence, tuple or map. */
    method End() returns (r: Result<Handle, Error>)
      requires Valid()
      modifies data
      ensures Valid() && Grows(old(data.heap), data.heap)
      ensures r.Ok? ==> TopIsList(old(data.Partials())) && r.value < |data.heap|
      ensures r.Ok? ==> Reify(data.heap, r.value) == TList(Top(old(data.Partials())).items)
      ensures r.Ok? ==> data.Partials() == Pop(old(data.Partials())) && State() == old(State())
      ensures r.Err? ==> IsStoreFailure(r.error)
      ensures r.Err? && TopIsList(old(data.Partials())) ==> r.error == New(Refused)
      ensures data.reliable && TopIsList(old(data.Partials())) ==> r.Ok?
    {
      var e := data.EndList();
      r := OrElseWrap(e);
    }

    /**
      * Closes the open list of a struct-like value. With a struct symbol set,
      * from this value or from any earlier one, the result is the two-item
      * list [symbol, body]; otherwise it is the body.
      */
    method EndStructLike() returns (r: Result<Handle, Error>)
      requires Valid()
      modifies data
      ensures Valid() && Grows(old(data.heap), data.heap)
      ensures r.Ok? ==> TopIsList(old(data.Partials())) && r.value < |data.heap|
      ensures r.Ok? && old(structSym).None? ==>
        Reify(data.heap, r.value) == TList(Top(old(data.Partials())).items)
      ensures r.Ok? && old(structSym).Some? ==>
        Reify(data.heap, r.value) == TList([Item(old(State()).sym.value, false), Item(TList(Top(old(data.Partials())).items), false)])
      ensures r.Ok? ==> data.Partials() == Pop(old(data.Partials())) && State() == old(State())
      ensures r.Err? ==> IsStoreFailure(r.error)
      ensures r.Err? && TopIsList(old(data.Partials())) ==> r.error == New(Refused)
      ensures data.reliable && TopIsList(old(data.Partials())) ==> r.Ok?
    {
      var l := data.EndList();
      if l.Err? {
        return WrapErr(l.error);
      }
      match structSym
      case Some(addr) =>
        ghost var h1 := data.heap;
        r := ListOfTwo(addr, l.value, 2);
        GrowsTransitive(old(data.heap), h1, data.heap);
      case None =>
        r := Ok(l.value);
    }

    /** Serializes every element into the open list, in order (serde's loop over a sequence). */
    method SerializeElements(xs: seq<Serde.Input>) returns (r: Result<(), Error>)
      requires Valid() && TopIsList(data.Partials())
      modifies this, data
      ensures Valid() && Grows(old(data.heap), data.heap)
      ensures r.Ok? ==>
        data.Partials() == Pop(old(data.Partials())) +
          [PartialList(Top(old(data.Partials())).items + EncodeElements(options, data.symbolOf, xs, old(State())).items)]
      ensures r.Ok? ==> State() == EncodeElements(options, data.symbolOf, xs, old(State())).after
      ensures r.Err? ==> r.error == New(Refused)
      ensures data.reliable ==> r.Ok?
      decreases xs, 2
    {
      ghost var below := Pop(data.Partials());
      ghost var base := Top(data.Partials()).items;
      ghost var s0 := State();
      GrowsByAppending(data.heap, data.heap);
      assert data.Partials() == below + [PartialList(base + EncodeElements(options, data.symbolOf, xs[..0], s0).items)] by {
        assert xs[..0] == [] && base + [] == base;
      }
      var i := 0;
      while i < |xs|
        invariant 0 <= i <= |xs|
        invariant Valid() && Grows(old(data.heap), data.heap)
        invariant data.Partials() == below + [PartialList(base + EncodeElements(options, data.symbolOf, xs[..i], s0).items)]
        invariant State() == EncodeElements(options, data.symbolOf, xs[..i], s0).after
      {
        ghost var prev := EncodeElements(options, data.symbolOf, xs[..i], s0).items;
        ghost var h := data.heap;
        assert Pop(data.Partials()) == below && Top(data.Partials()).items == base + prev;
        var e := SerializeElement(xs[i]);
        GrowsTransitive(old(data.heap), h, data.heap);
        if e.Err? {
          return e;
        }
        ElementsStep(options, data.symbolOf, xs, s0, i);
        ghost var item := Item(Encode(options, data.symbolOf, xs[i], EncodeElements(options, data.symbolOf, xs[..i], s0).after).tree, false);
        assert base + prev + [item] == base + (prev + [item]);
        i := i + 1;
      }
      assert xs[..i] == xs;
      r := Ok(());
    }

    /** Serializes every field into the open list, in order (a derived struct's field calls). */
    method SerializeFields(fields: seq<(string, Serde.Input)>) returns (r: Result<(), Error>)
      requires Valid() && TopIsList(data.Partials())
      modifies this, data
      ensures Valid() && Grows(old(data.heap), data.heap)
      ensures r.Ok? ==>
        data.Partials() == Pop(old(data.Partials())) +
          [PartialList(Top(old(data.Partials())).items + EncodeFields(options, data.symbolOf, fields, old(State())).items)]
      ensures r.Ok? ==> State() == EncodeFields(options, data.symbolOf, fields, old(State())).after
      ensures r.Err? ==> r.error == New(Refused)
      ensures data.reliable ==> r.Ok?
      decreases fields, 2
    {
      ghost var below := Pop(data.Partials());
      ghost var base := Top(data.Partials()).items;
      ghost var s0 := State();
      GrowsByAppending(data.heap, data.heap);
      assert data.Partials() == below + [PartialList(base + EncodeFields(options, data.symbolOf, fields[..0], s0).items)] by {
        assert fields[..0] == [] && base + [] == base;
      }
      var i := 0;
      while i < |fields|
        invariant 0 <= i <= |fields|
        invariant Valid() && Grows(old(data.heap), data.heap)
        invariant data.Partials() == below + [PartialList(base + EncodeFields(options, data.symbolOf, fields[..i], s0).items)]
        invariant State() == EncodeFields(options, data.symbolOf, fields[..i], s0).after
      {
        ghost var prev := EncodeFields(options, data.symbolOf, fields[..i], s0).items;
        ghost var h := data.heap;
        assert Pop(data.Partials()) == below && Top(data.Partials()).items == base + prev;
        assert fields[i] in fields && fields[i].1 < fields[i];
        var e := SerializeField(fields[i].0, fields[i].1);
        GrowsTransitive(old(data.heap), h, data.heap);
        if e.Err? {
          return e;
        }
        FieldsStep(options, data.symbolOf, fields, s0, i);
        ghost var item := Item(TPair(TSymbol(fields[i].0), Encode(options, data.symbolOf, fields[i].1, EncodeFields(options, data.symbolOf, fields[..i], s0).after).tree), true);
        assert base + prev + [item] == base + (prev + [item]);
        i := i + 1;
      }
      assert fields[..i] == fields;
      r := Ok(());
    }

    /** serde's default `serialize_entry`: the key, then the value. */
    method SerializeEntry(kv: (Serde.Input, Serde.Input)) returns (r: Result<(), Error>)
      requires Valid()
      modifies this, data
      ensures Valid() && Grows(old(data.heap), data.heap)
      ensures r.Ok? ==>
        TopIsList(old(data.Partials())) &&
          data.Partials() == Pop(old(data.Partials())) +
            [PartialList(Top(old(data.Partials())).items + [Item(EncodeEntry(options, data.symbolOf, kv, old(State())).tree, true)])]
      ensures r.Ok? ==> State() == EncodeEntry(options, data.symbolOf, kv, old(State())).after
      ensures r.Err? ==> IsStoreFailure(r.error)
      ensures r.Err? && TopIsList(old(data.Partials())) ==> r.error == New(Refused)
      ensures data.reliable && TopIsList(old(data.Partials())) ==> r.Ok?
      decreases kv, 2
    {
      var k := SerializeKey(kv.0);
      if k.Err? {
        return k;
      }
      ghost var h := data.heap;
      r := SerializeValue(kv.1);
      GrowsTransitive(old(data.heap), h, data.heap);
    }

    /** Serializes every entry into the open list, key then value, in order (serde's loop over a map). */
    method SerializeEntries(entries: seq<(Serde.Input, Serde.Input)>) returns (r: Result<(), Error>)
      requires Valid() && TopIsList(data.Partials())
      modifies this, data
      ensures Valid() && Grows(old(data.heap), data.heap)
      ensures r.Ok? ==>
        data.Partials() == Pop(old(data.Partials())) +
          [PartialList(Top(old(data.Partials())).items + EncodeEntries(options, data.symbolOf, entries, old(State())).items)]
      ensures r.Ok? ==> State() == EncodeEntries(options, data.symbolOf, entries, old(State())).after
      ensures r.Err? ==> r.error == New(Refused)
      ensures data.reliable ==> r.Ok?
      decreases entries, 2
    {
      ghost var below := Pop(data.Partials());
      ghost var base := Top(data.Partials()).items;
      ghost var s0 := State();
      GrowsByAppending(data.heap, data.heap);
      assert data.Partials() == below + [PartialList(base + EncodeEntries(options, data.symbolOf, entries[..0], s0).items)] by {
        assert entries[..0] == [] && base + [] == base;
      }
      var i := 0;
      while i < |entries|
        invariant 0 <= i <= |entries|
        invariant Valid() && Grows(old(data.heap), data.heap)
        invariant data.Partials() == below + [PartialList(base + EncodeEntries(options, data.symbolOf, entries[..i], s0).items)]
        invariant State() == EncodeEntries(options, data.symbolOf, entries[..i], s0).after
      {
        ghost var prev := EncodeEntries(options, data.symbolOf, entries[..i], s0).items;
        ghost var h := data.heap;
        assert Pop(data.Partials()) == below && Top(data.Partials()).items == base + prev;
        var e := SerializeEntry(entries[i]);
        GrowsTransitive(old(data.heap), h, data.heap);
        if e.Err? {
          return e;
        }
        EntriesStep(options, data.symbolOf, entries, s0, i);
        ghost var item := Item(EncodeEntry(options, data.symbolOf, entries[i], EncodeEntries(options, data.symbolOf, entries[..i], s0).after).tree, true);
        assert base + prev + [item] == base + (prev + [item]);
        i := i + 1;
      }
      assert entries[..i] == entries;
      r := Ok(());
    }

    /**
      * `value.serialize(&mut serializer)` for each input shape: the calls
      * serde makes for that shape, in serde's order.
      */
    method Serialize(v: Serde.Input) returns (r: Result<Handle, Error>)
      requires Valid()
      modifies this, data
      ensures Valid() && Grows(old(data.heap), data.heap)
      ensures r.Ok? ==> r.value < |data.heap| && data.Partials() == old(data.Partials())
      ensures r.Ok? ==> Reify(data.heap, r.value) == Encode(options, data.symbolOf, v, old(State())).tree
      ensures r.Ok? ==> State() == Encode(options, data.symbolOf, v, old(State())).after
      ensures r.Err? ==> r.error == New(Refused)
      ensures data.reliable ==> r.Ok?
      decreases v, 1
    {
      ghost var s0 := State();
      match v
      case Bool(b) =>
        assert Encode(options, data.symbolOf, v, s0) == Encoded(if b then TTrue else TFalse, s0);
        r := SerializeBool(b);
      case Int(n) =>
        assert Encode(options, data.symbolOf, v, s0) == Encoded(TNumber(n), s0);
        r := AddConvertibleNumber(n);
      case Char(c) =>
        assert Encode(options, data.symbolOf, v, s0) == Encoded(TChar(c), s0);
        r := SerializeChar(c);
      case Str(s) =>
        assert Encode(options, data.symbolOf, v, s0) == Encoded(TCharList(s), s0);
        r := SerializeStr(s);
      case Bytes(b) =>
        assert Encode(options, data.symbolOf, v, s0) == Encoded(TByteList(b), s0);
        r := SerializeBytes(b);
      case OptNone =>
        assert Encode(options, data.symbolOf, v, s0).after == s0;
        r := SerializeNone();
      case Unit =>
        assert Encode(options, data.symbolOf, v, s0) == Encoded(TUnit, s0);
        r := SerializeUnit();
      case UnitStruct(name) =>
        assert Encode(options, data.symbolOf, v, s0).after == s0;
        r := SerializeUnitStruct(name);
      case UnitVariant(name, index, variant) =>
        assert Encode(options, data.symbolOf, v, s0) == Encoded(Discriminant(options, name, index, variant), s0);
        r := SerializeUnitVariant(name, index, variant);
      case _ => r := SerializeCompound(v);
    }

    /** The shapes that hold further values. */
    method SerializeCompound(v: Serde.Input) returns (r: Result<Handle, Error>)
      requires Valid() && v.IsCompound()
      modifies this, data
      ensures Valid() && Grows(old(data.heap), data.heap)
      ensures r.Ok? ==> r.value < |data.heap| && data.Partials() == old(data.Partials())
      ensures r.Ok? ==> Reify(data.heap, r.value) == Encode(options, data.symbolOf, v, old(State())).tree
      ensures r.Ok? ==> State() == Encode(options, data.symbolOf, v, old(State())).after
      ensures r.Err? ==> r.error == New(Refused)
      ensures data.reliable ==> r.Ok?
      decreases v, 0
    {
      match v
      case OptSome(x) => r := SerializeSome(x);
      case NewtypeStruct(name, x) => r := SerializeNewtypeStruct(name, x);
      case NewtypeVariant(name, index, variant, x) => r := SerializeNewtypeVariant(name, index, variant, x);
      case Seq(xs) => r := WriteSeq(xs);
      case Tuple(xs) => r := WriteTuple(xs);
      case TupleStruct(name, xs) => r := WriteTupleStruct(name, xs);
      case TupleVariant(name, index, variant, xs) => r := WriteTupleVariant(name, index, variant, xs);
      case Map(entries) => r := WriteMap(entries);
      case Struct(name, fields) => r := WriteStruct(name, fields);
      case StructVariant(name, index, variant, fields) => r := WriteStructVariant(name, index, variant, fields);
    }

    /** serde's `Serialize` for a sequence: `serialize_seq`, each element, `end`. */
    method WriteSeq(xs: seq<Serde.Input>) returns (r: Result<Handle, Error>)
      requires Valid()
      modifies this, data
      ensures Valid() && Grows(old(data.heap), data.heap)
      ensures r.Ok? ==> r.value < |data.heap| && data.Partials() == old(data.Partials())
      ensures r.Ok? ==> Reify(data.heap, r.value) == Encode(options, data.symbolOf, Serde.Seq(xs), old(State())).tree
      ensures r.Ok? ==> State() == Encode(options, data.symbolOf, Serde.Seq(xs), old(State())).after
      ensures r.Err? ==> r.error == New(Refused)
      ensures data.reliable ==> r.Ok?
      decreases xs, 4
    {
      ghost var p0 := data.Partials();
      ghost var s0 := State();
      ghost var es := EncodeElements(options, data.symbolOf, xs, s0);
      assert Encode(options, data.symbolOf, Serde.Seq(xs), s0) == Encoded(TList(es.items), es.after);
      var s := SerializeSeq(Some(|xs|));
      if s.Err? {
        return Err(s.error);
      }
      PushThenPop(p0, PartialList([]));
      r := CollectElements(xs);
    }

    /** serde's `Serialize` for a tuple: `serialize_tuple`, each element, `end`. */
    method WriteTuple(xs: seq<Serde.Input>) returns (r: Result<Handle, Error>)
      requires Valid()
      modifies this, data
      ensures Valid() && Grows(old(data.heap), data.heap)
      ensures r.Ok? ==> r.value < |data.heap| && data.Partials() == old(data.Partials())
      ensures r.Ok? ==> Reify(data.heap, r.value) == Encode(options, data.symbolOf, Serde.Tuple(xs), old(State())).tree
      ensures r.Ok? ==> State() == Encode(options, data.symbolOf, Serde.Tuple(xs), old(State())).after
      ensures r.Err? ==> r.error == New(Refused)
      ensures data.reliable ==> r.Ok?
      decreases xs, 4
    {
      ghost var p0 := data.Partials();
      ghost var s0 := State();
      ghost var es := EncodeElements(options, data.symbolOf, xs, s0);
      assert Encode(options, data.symbolOf, Serde.Tuple(xs), s0) == Encoded(TList(es.items), es.after);
      var s := SerializeTuple(|xs|);
      if s.Err? {
        return Err(s.error);
      }
      PushThenPop(p0, PartialList([]));
      r := CollectElements(xs);
    }

    /** The elements of a freshly opened list, then `end`. */
    method CollectElements(xs: seq<Serde.Input>) returns (r: Result<Handle, Error>)
      requires Valid() && TopIsList(data.Partials()) && Top(data.Partials()).items == []
      modifies this, data
      ensures Valid() && Grows(old(data.heap), data.heap)
      ensures r.Ok? ==> r.value < |data.heap| && data.Partials() == Pop(old(data.Partials()))
      ensures r.Ok? ==> Reify(data.heap, r.value) == TList(EncodeElements(options, data.symbolOf, xs, old(State())).items)
      ensures r.Ok? ==> State() == EncodeElements(options, data.symbolOf, xs, old(State())).after
      ensures r.Err? ==> r.error == New(Refused)
      ensures data.reliable ==> r.Ok?
      decreases xs, 3
    {
      ghost var p0 := data.Partials();
      ghost var s0 := State();
      var e := SerializeElements(xs);
      if e.Err? {
        return Err(e.error);
      }
      ghost var items := EncodeElements(options, data.symbolOf, xs, s0).items;
      assert [] + items == items;
      PushThenPop(Pop(p0), PartialList(items));
      ghost var h := data.heap;
      r := End();
      GrowsTransitive(old(data.heap), h, data.heap);
    }

    /** The entries of a freshly opened list, then `end`. */
    method CollectEntries(entries: seq<(Serde.Input, Serde.Input)>) returns (r: Result<Handle, Error>)
      requires Valid() && TopIsList(data.Partials()) && Top(data.Partials()).items == []
      modifies this, data
      ensures Valid() && Grows(old(data.heap), data.heap)
      ensures r.Ok? ==> r.value < |data.heap| && data.Partials() == Pop(old(data.Partials()))
      ensures r.Ok? ==> Reify(data.heap, r.value) == TList(EncodeEntries(options, data.symbolOf, entries, old(State())).items)
      ensures r.Ok? ==> State() == EncodeEntries(options, data.symbolOf, entries, old(State())).after
      ensures r.Err? ==> r.error == New(Refused)
      ensures data.reliable ==> r.Ok?
      decreases entries, 3
    {
      ghost var p0 := data.Partials();
      ghost var s0 := State();
      var e := SerializeEntries(entries);
      if e.Err? {
        return Err(e.error);
      }
      ghost var items := EncodeEntries(options, data.symbolOf, entries, s0).items;
      assert [] + items == items;
      PushThenPop(Pop(p0), PartialList(items));
      ghost var h := data.heap;
      r := End();
      GrowsTransitive(old(data.heap), h, data.heap);
    }

    /** The elements of a freshly opened struct-like list, then `end` with the struct symbol. */
    method CollectStructElements(xs: seq<Serde.Input>) returns (r: Result<Handle, Error>)
      requires Valid() && TopIsList(data.Partials()) && Top(data.Partials()).items == []
      modifies this, data
      ensures Valid() && Grows(old(data.heap), data.heap)
      ensures r.Ok? ==> r.value < |data.heap| && data.Partials() == Pop(old(data.Partials()))
      ensures r.Ok? ==>
        var es := EncodeElements(options, data.symbolOf, xs, old(State()));
        Reify(data.heap, r.value) == StructLike(TList(es.items), es.after.sym)
      ensures r.Ok? ==> State() == EncodeElements(options, data.symbolOf, xs, old(State())).after
      ensures r.Err? ==> r.error == New(Refused)
      ensures data.reliable ==> r.Ok?
      decreases xs, 3
    {
      ghost var p0 := data.Partials();
      ghost var s0 := State();
      var e := SerializeElements(xs);
      if e.Err? {
        return Err(e.error);
      }
      ghost var items := EncodeElements(options, data.symbolOf, xs, s0).items;
      assert [] + items == items;
      PushThenPop(Pop(p0), PartialList(items));
      ghost var h := data.heap;
      r := EndStructLike();
      GrowsTransitive(old(data.heap), h, data.heap);
    }

    /** The fields of a freshly opened struct-like list, then `end` with the struct symbol. */
    method CollectStructFields(fields: seq<(string, Serde.Input)>) returns (r: Result<Handle, Error>)
      requires Valid() && TopIsList(data.Partials()) && Top(data.Partials()).items == []
      modifies this, data
      ensures Valid() && Grows(old(data.heap), data.heap)
      ensures r.Ok? ==> r.value < |data.heap| && data.Partials() == Pop(old(data.Partials()))
      ensures r.Ok? ==>
        var es := EncodeFields(options, data.symbolOf, fields, old(State()));
        Reify(data.heap, r.value) == StructLike(TList(es.items), es.after.sym)
      ensures r.Ok? ==> State() == EncodeFields(options, data.symbolOf, fields, old(State())).after
      ensures r.Err? ==> r.error == New(Refused)
      ensures data.reliable ==> r.Ok?
      decreases fields, 3
    {
      ghost var p0 := data.Partials();
      ghost var s0 := State();
      var e := SerializeFields(fields);
      if e.Err? {
        return Err(e.error);
      }
      ghost var items := EncodeFields(options, data.symbolOf, fields, s0).items;
      assert [] + items == items;
      PushThenPop(Pop(p0), PartialList(items));
      ghost var h := data.heap;
      r := EndStructLike();
      GrowsTransitive(old(data.heap), h, data.heap);
    }

    /** serde's `Serialize` for a tuple struct: `serialize_tuple_struct`, each field, `end`. */
    method WriteTupleStruct(name: string, xs: seq<Serde.Input>) returns (r: Result<Handle, Error>)
      requires Valid()
      modifies this, data
      ensures Valid() && Grows(old(data.heap), data.heap)
      ensures r.Ok? ==> r.value < |data.heap| && data.Partials() == old(data.Partials())
      ensures r.Ok? ==> Reify(data.heap, r.value) == Encode(options, data.symbolOf, Serde.TupleStruct(name, xs), old(State())).tree
      ensures r.Ok? ==> State() == Encode(options, data.symbolOf, Serde.TupleStruct(name, xs), old(State())).after
      ensures r.Err? ==> r.error == New(Refused)
      ensures data.reliable ==> r.Ok?
      decreases xs, 4
    {
      ghost var p0 := data.Partials();
      ghost var s0 := State();
      ghost var es := EncodeElements(options, data.symbolOf, xs, OpenStruct(options, name, s0));
      assert Encode(options, data.symbolOf, Serde.TupleStruct(name, xs), s0) == Encoded(StructLike(TList(es.items), es.after.sym), es.after);
      var s := SerializeTupleStruct(name, |xs|);
      if s.Err? {
        return Err(s.error);
      }
      assert State() == OpenStruct(options, name, s0);
      PushThenPop(p0, PartialList([]));
      ghost var h := data.heap;
      r := CollectStructElements(xs);
      GrowsTransitive(old(data.heap), h, data.heap);
    }

    /** serde's `Serialize` for a tuple variant: `serialize_tuple_variant`, each field, `end`. */
    method WriteTupleVariant(name: string, index: Serde.u32, variant: string, xs: seq<Serde.Input>) returns (r: Result<Handle, Error>)
      requires Valid()
      modifies this, data
      ensures Valid() && Grows(old(data.heap), data.heap)
      ensures r.Ok? ==> r.value < |data.heap| && data.Partials() == old(data.Partials())
      ensures r.Ok? ==>
        Reify(data.heap, r.value) == Encode(options, data.symbolOf, Serde.TupleVariant(name, index, variant, xs), old(State())).tree
      ensures r.Ok? ==> State() == Encode(options, data.symbolOf, Serde.TupleVariant(name, index, variant, xs), old(State())).after
      ensures r.Err? ==> r.error == New(Refused)
      ensures data.reliable ==> r.Ok?
      decreases xs, 4
    {
      ghost var p0 := data.Partials();
      ghost var s0 := State();
      ghost var s1 := s0.(sym := Some(Discriminant(options, name, index, variant)));
      ghost var es := EncodeElements(options, data.symbolOf, xs, s1);
      assert Encode(options, data.symbolOf, Serde.TupleVariant(name, index, variant, xs), s0) == Encoded(StructLike(TList(es.items), es.after.sym), es.after);
      var s := SerializeTupleVariant(name, index, variant, |xs|);
      if s.Err? {
        return Err(s.error);
      }
      assert State() == s1;
      PushThenPop(p0, PartialList([]));
      ghost var h := data.heap;
      r := CollectStructElements(xs);
      GrowsTransitive(old(data.heap), h, data.heap);
    }

    /** serde's `Serialize` for a map: `serialize_map`, each entry, `end`. */
    method WriteMap(entries: seq<(Serde.Input, Serde.Input)>) returns (r: Result<Handle, Error>)
      requires Valid()
      modifies this, data
      ensures Valid() && Grows(old(data.heap), data.heap)
      ensures r.Ok? ==> r.value < |data.heap| && data.Partials() == old(data.Partials())
      ensures r.Ok? ==> Reify(data.heap, r.value) == Encode(options, data.symbolOf, Serde.Map(entries), old(State())).tree
      ensures r.Ok? ==> State() == Encode(options, data.symbolOf, Serde.Map(entries), old(State())).after
      ensures r.Err? ==> r.error == New(Refused)
      ensures data.reliable ==> r.Ok?
      decreases entries, 4
    {
      ghost var p0 := data.Partials();
      ghost var s0 := State();
      ghost var es := EncodeEntries(options, data.symbolOf, entries, s0);
      assert Encode(options, data.symbolOf, Serde.Map(entries), s0) == Encoded(TList(es.items), es.after);
      var s := SerializeMap(Some(|entries|));
      if s.Err? {
        return Err(s.error);
      }
      PushThenPop(p0, PartialList([]));
      r := CollectEntries(entries);
    }

    /** serde's `Serialize` for a struct: `serialize_struct`, each field, `end`. */
    method WriteStruct(name: string, fields: seq<(string, Serde.Input)>) returns (r: Result<Handle, Error>)
      requires Valid()
      modifies this, data
      ensures Valid() && Grows(old(data.heap), data.heap)
      ensures r.Ok? ==> r.value < |data.heap| && data.Partials() == old(data.Partials())
      ensures r.Ok? ==> Reify(data.heap, r.value) == Encode(options, data.symbolOf, Serde.Struct(name, fields), old(State())).tree
      ensures r.Ok? ==> State() == Encode(options, data.symbolOf, Serde.Struct(name, fields), old(State())).after
      ensures r.Err? ==> r.error == New(Refused)
      ensures data.reliable ==> r.Ok?
      decreases fields, 4
    {
      ghost var p0 := data.Partials();
      ghost var s0 := State();
      ghost var es := EncodeFields(options, data.symbolOf, fields, OpenStruct(options, name, s0));
      assert Encode(options, data.symbolOf, Serde.Struct(name, fields), s0) == Encoded(StructLike(TList(es.items), es.after.sym), es.after);
      var s := SerializeStruct(name, |fields|);
      if s.Err? {
        return Err(s.error);
      }
      assert State() == OpenStruct(options, name, s0);
      PushThenPop(p0, PartialList([]));
      ghost var h := data.heap;
      r := CollectStructFields(fields);
      GrowsTransitive(old(data.heap), h, data.heap);
    }

    /** serde's `Serialize` for a struct variant: `serialize_struct_variant`, each field, `end`. */
    method WriteStructVariant(name: string, index: Serde.u32, variant: string, fields: seq<(string, Serde.Input)>)
      returns (r: Result<Handle, Error>)
      requires Valid()
      modifies this, data
      ensures Valid() && Grows(old(data.heap), data.heap)
      ensures r.Ok? ==> r.value < |data.heap| && data.Partials() == old(data.Partials())
      ensures r.Ok? ==>
        Reify(data.heap, r.value) == Encode(options, data.symbolOf, Serde.StructVariant(name, index, variant, fields), old(State())).tree
      ensures r.Ok? ==> State() == Encode(options, data.symbolOf, Serde.StructVariant(name, index, variant, fields), old(State())).after
      ensures r.Err? ==> r.error == New(Refused)
      ensures data.reliable ==> r.Ok?
      decreases fields, 4
    {
      ghost var p0 := data.Partials();
      ghost var s0 := State();
      ghost var s1 := s0.(sym := Some(Discriminant(options, name, index, variant)));
      ghost var es := EncodeFields(options, data.symbolOf, fields, s1);
      assert Encode(options, data.symbolOf, Serde.StructVariant(name, index, variant, fields), s0) == Encoded(StructLike(TList(es.items), es.after.sym), es.after);
      var s := SerializeStructVariant(name, index, variant, |fields|);
      if s.Err? {
        return Err(s.error);
      }
      assert State() == s1;
      PushThenPop(p0, PartialList([]));
      ghost var h := data.heap;
      r := CollectStructFields(fields);
      GrowsTransitive(old(data.heap), h, data.heap);
    }
  }
}
