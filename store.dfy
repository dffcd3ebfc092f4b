/**
  * The tagged value store the encoder writes into, reduced to the effects the
  * encoder relies on: a heap of values addressed by handles, and a stack of
  * lists, char lists and byte lists that are still being built.
  *
  * The store is an external component; its allocation policy and its
  * symbol conversion are not modelled. Any operation may be refused by the
  * store, which the model expresses as a nondeterministic failure.
  */
module GarnishStore {
  import opened Wrappers

  /** An address in the heap. */
  type Handle = nat

  /** One entry of a list as stored: the handle of the item and its associative flag. */
  datatype Entry = Entry(handle: Handle, assoc: bool)

  /** A heap cell. Composite cells refer to other cells by handle. */
  datatype Value =
    | Unit
    | True
    | False
    | Number(n: int)
    | Char(c: char)
    | CharList(chars: string)
    | ByteList(bytes: seq<bv8>)
    | Symbol(name: string)
    | Pair(left: Handle, right: Handle)
    | List(entries: seq<Entry>)

  /** What a handle denotes once every handle inside it is followed. */
  datatype Tree =
    | TUnit
    | TTrue
    | TFalse
    | TNumber(n: int)
    | TChar(c: char)
    | TCharList(chars: string)
    | TByteList(bytes: seq<bv8>)
    | TSymbol(name: string)
    | TPair(left: Tree, right: Tree)
    | TList(items: seq<Item>)

  /** One item of a denoted list. */
  datatype Item = Item(value: Tree, assoc: bool)

  /** A collection that has been started and not yet ended, as stored. */
  datatype Open =
    | ListOpen(entries: seq<Entry>)
    | CharsOpen(chars: string)
    | BytesOpen(bytes: seq<bv8>)

  /** What an open collection denotes. */
  datatype Partial =
    | PartialList(items: seq<Item>)
    | PartialChars(chars: string)
    | PartialBytes(bytes: seq<bv8>)

  /** Why a store operation failed. */
  datatype StoreError =
    | Refused              // the store declined the operation for reasons of its own
    | NoOpenList           // list append or end without an open list on top
    | NoOpenCharList       // char-list append or end without an open char list on top
    | NoOpenByteList       // byte-list append or end without an open byte list on top
    | BadHandle(handle: Handle)

  predicate EntriesBelow(entries: seq<Entry>, bound: nat)
  {
    forall i :: 0 <= i < |entries| ==> entries[i].handle < bound
  }

  predicate RefsBelow(v: Value, bound: nat)
  {
    match v
    case Pair(l, r) => l < bound && r < bound
    case List(entries) => EntriesBelow(entries, bound)
    case _ => true
  }

  /** Every cell refers only to cells allocated before it, so the heap is acyclic. */
  predicate WellFormed(heap: seq<Value>)
  {
    forall h :: 0 <= h < |heap| ==> RefsBelow(heap[h], h)
  }

  predicate OpenBelow(o: Open, bound: nat)
  {
    o.ListOpen? ==> EntriesBelow(o.entries, bound)
  }

  predicate OpensBelow(open: seq<Open>, bound: nat)
  {
    forall j :: 0 <= j < |open| ==> OpenBelow(open[j], bound)
  }

  /** The tree that handle `h` denotes in `heap`. */
  function Reify(heap: seq<Value>, h: Handle): Tree
    requires WellFormed(heap) && h < |heap|
    decreases h, 1
  {
    match heap[h]
    case Unit => TUnit
    case True => TTrue
    case False => TFalse
    case Number(n) => TNumber(n)
    case Char(c) => TChar(c)
    case CharList(s) => TCharList(s)
    case ByteList(b) => TByteList(b)
    case Symbol(name) => TSymbol(name)
    case Pair(l, r) => TPair(Reify(heap, l), Reify(heap, r))
    case List(entries) => TList(ReifyEntries(heap, entries, h))
  }

  /** The items that list entries denote, in order. */
  function ReifyEntries(heap: seq<Value>, entries: seq<Entry>, bound: nat): seq<Item>
    requires WellFormed(heap) && bound <= |heap| && EntriesBelow(entries, bound)
    decreases bound, 0, |entries|
  {
    if entries == [] then []
    else
      var last := entries[|entries| - 1];
      ReifyEntries(heap, entries[..|entries| - 1], bound) + [Item(Reify(heap, last.handle), last.assoc)]
  }

  /** Item `i` of a reified list is entry `i` followed. */
  lemma {:induction false} ReifyEntriesAt(heap: seq<Value>, entries: seq<Entry>, bound: nat, i: nat)
    requires WellFormed(heap) && bound <= |heap| && EntriesBelow(entries, bound)
    requires i < |entries|
    ensures |ReifyEntries(heap, entries, bound)| == |entries|
    ensures ReifyEntries(heap, entries, bound)[i] == Item(Reify(heap, entries[i].handle), entries[i].assoc)
    decreases |entries|
  {
    var init := entries[..|entries| - 1];
    if i < |init| {
      ReifyEntriesAt(heap, init, bound, i);
    } else if init != [] {
      ReifyEntriesAt(heap, init, bound, 0);
    }
  }

  /** Appending cells to a heap does not change what its existing handles denote. */
  lemma {:induction false} ReifyExtends(heap: seq<Value>, bigger: seq<Value>, h: Handle)
    requires WellFormed(bigger) && heap <= bigger && h < |heap|
    ensures WellFormed(heap)
    ensures Reify(bigger, h) == Reify(heap, h)
    decreases h, 1
  {
    assert forall k :: 0 <= k < |heap| ==> heap[k] == bigger[k];
    match heap[h]
    case Pair(l, r) =>
      ReifyExtends(heap, bigger, l);
      ReifyExtends(heap, bigger, r);
    case List(entries) =>
      ReifyEntriesExtends(heap, bigger, entries, h);
    case _ =>
  }

  lemma {:induction false} ReifyEntriesExtends(heap: seq<Value>, bigger: seq<Value>, entries: seq<Entry>, bound: nat)
    requires WellFormed(bigger) && heap <= bigger && bound <= |heap| && EntriesBelow(entries, bound)
    ensures WellFormed(heap)
    ensures ReifyEntries(bigger, entries, bound) == ReifyEntries(heap, entries, bound)
    decreases bound, 0, |entries|
  {
    assert forall k :: 0 <= k < |heap| ==> heap[k] == bigger[k];
    if entries != [] {
      ReifyEntriesExtends(heap, bigger, entries[..|entries| - 1], bound);
      ReifyExtends(heap, bigger, entries[|entries| - 1].handle);
    }
  }

  /**
    * `bigger` extends `heap` and every handle of `heap` denotes the same
    * tree in both.
    */
  ghost predicate Grows(heap: seq<Value>, bigger: seq<Value>)
  {
    WellFormed(heap) && WellFormed(bigger) && heap <= bigger &&
    forall h :: 0 <= h < |heap| ==> Reify(bigger, h) == Reify(heap, h)
  }

  lemma GrowsByAppending(heap: seq<Value>, bigger: seq<Value>)
    requires WellFormed(bigger) && heap <= bigger
    ensures Grows(heap, bigger)
  {
    assert WellFormed(heap) by {
      forall k | 0 <= k < |heap| ensures RefsBelow(heap[k], k) {
        assert heap[k] == bigger[k];
      }
    }
    forall h | 0 <= h < |heap| ensures Reify(bigger, h) == Reify(heap, h) {
      ReifyExtends(heap, bigger, h);
    }
  }

  lemma GrowsTransitive(heap: seq<Value>, middle: seq<Value>, bigger: seq<Value>)
    requires Grows(heap, middle) && Grows(middle, bigger)
    ensures Grows(heap, bigger)
  {
    forall h | 0 <= h < |heap| ensures Reify(bigger, h) == Reify(heap, h) {
      assert Reify(bigger, h) == Reify(middle, h);
    }
  }

  function PartialOf(heap: seq<Value>, o: Open): Partial
    requires WellFormed(heap) && OpenBelow(o, |heap|)
  {
    match o
    case ListOpen(entries) => PartialList(ReifyEntries(heap, entries, |heap|))
    case CharsOpen(chars) => PartialChars(chars)
    case BytesOpen(bytes) => PartialBytes(bytes)
  }

  /** What the open collections denote, bottom of the stack first. */
  function PartialsOf(heap: seq<Value>, open: seq<Open>): (ps: seq<Partial>)
    requires WellFormed(heap) && OpensBelow(open, |heap|)
    ensures |ps| == |open|
  {
    if open == [] then []
    else PartialsOf(heap, open[..|open| - 1]) + [PartialOf(heap, open[|open| - 1])]
  }

  lemma {:induction false} PartialsGrow(heap: seq<Value>, bigger: seq<Value>, open: seq<Open>)
    requires WellFormed(bigger) && heap <= bigger && OpensBelow(open, |heap|)
    ensures WellFormed(heap) && OpensBelow(open, |bigger|)
    ensures PartialsOf(bigger, open) == PartialsOf(heap, open)
    decreases |open|
  {
    GrowsByAppending(heap, bigger);
    OpensBelowMonotone(open, |heap|, |bigger|);
    if open != [] {
      var top := open[|open| - 1];
      PartialsGrow(heap, bigger, open[..|open| - 1]);
      if top.ListOpen? {
        ReifyEntriesExtends(heap, bigger, top.entries, |heap|);
        ReifyEntriesBound(bigger, top.entries, |heap|, |bigger|);
      }
    }
  }

  /** The bound passed to `ReifyEntries` only restricts, it does not change the result. */
  lemma {:induction false} ReifyEntriesBound(heap: seq<Value>, entries: seq<Entry>, bound: nat, wider: nat)
    requires WellFormed(heap) && bound <= wider <= |heap| && EntriesBelow(entries, bound)
    ensures ReifyEntries(heap, entries, wider) == ReifyEntries(heap, entries, bound)
    decreases |entries|
  {
    if entries != [] {
      ReifyEntriesBound(heap, entries[..|entries| - 1], bound, wider);
    }
  }

  lemma OpensBelowMonotone(open: seq<Open>, bound: nat, wider: nat)
    requires OpensBelow(open, bound) && bound <= wider
    ensures OpensBelow(open, wider)
  {
    forall j | 0 <= j < |open| ensures OpenBelow(open[j], wider) {
      assert OpenBelow(open[j], bound);
    }
  }

  function Pop<T>(s: seq<T>): seq<T>
    requires |s| > 0
  {
    s[..|s| - 1]
  }

  function Top<T>(s: seq<T>): T
    requires |s| > 0
  {
    s[|s| - 1]
  }

  lemma PushThenPop<T>(s: seq<T>, x: T)
    ensures Pop(s + [x]) == s && Top(s + [x]) == x
  {
    assert (s + [x])[..|s|] == s;
  }

  predicate TopIsList(ps: seq<Partial>) { |ps| > 0 && Top(ps).PartialList? }
  predicate TopIsChars(ps: seq<Partial>) { |ps| > 0 && Top(ps).PartialChars? }
  predicate TopIsBytes(ps: seq<Partial>) { |ps| > 0 && Top(ps).PartialBytes? }

  class Store {
    var heap: seq<Value>
    var open: seq<Open>
    /** The store's own conversion of a value into a symbol name (`add_symbol_from`). */
    const symbolOf: Tree -> string
    /** A reliable store never refuses an operation it can carry out. */
    const reliable: bool

    ghost predicate Valid()
      reads this
    {
      WellFormed(heap) && OpensBelow(open, |heap|)
    }

    /** The collections under construction, as trees. */
    ghost function Partials(): seq<Partial>
      reads this
      requires Valid()
    {
      PartialsOf(heap, open)
    }

    constructor (symbolOf: Tree -> string, reliable: bool)
      ensures Valid() && heap == [] && open == [] && this.symbolOf == symbolOf && this.reliable == reliable
    {
      heap := [];
      open := [];
      this.symbolOf := symbolOf;
      this.reliable := reliable;
    }

    /** Whether the store refuses the current operation; an unreliable store may refuse any of them. */
    method Refuse() returns (refused: bool)
      ensures reliable ==> !refused
    {
      if reliable {
        refused := false;
      } else {
        refused :| true;
      }
    }

    /** Appends a cell to the heap. */
    method Allocate(v: Value) returns (h: Handle)
      requires Valid() && RefsBelow(v, |heap|)
      modifies this
      ensures Valid() && Grows(old(heap), heap)
      ensures heap == old(heap) + [v] && open == old(open) && h == |old(heap)|
      ensures Partials() == old(Partials())
    {
      h := |heap|;
      heap := heap + [v];
      assert RefsBelow(heap[h], h);
      assert forall k :: 0 <= k < h ==> heap[k] == old(heap)[k];
      GrowsByAppending(old(heap), heap);
      PartialsGrow(old(heap), heap, open);
    }

    /** Allocates a scalar cell, unless the store refuses. */
    method AddScalar(v: Value) returns (r: Result<Handle, StoreError>)
      requires Valid()
      requires !v.Pair? && !v.List?
      modifies this
      ensures Valid() && Grows(old(heap), heap) && open == old(open)
      ensures r.Ok? ==> heap == old(heap) + [v] && r.value == |old(heap)|
      ensures r.Ok? ==> Partials() == old(Partials())
      ensures r.Err? ==> heap == old(heap) && r.error == Refused
      ensures reliable ==> r.Ok?
    {
      var refused := Refuse();
      if refused {
        GrowsByAppending(heap, heap);
        return Err(Refused);
      }
      var h := Allocate(v);
      return Ok(h);
    }

    method AddTrue() returns (r: Result<Handle, StoreError>)
      requires Valid()
      modifies this
      ensures Valid() && Grows(old(heap), heap) && open == old(open)
      ensures r.Ok? ==> r.value < |heap| && Reify(heap, r.value) == TTrue && Partials() == old(Partials())
      ensures r.Ok? ==> heap == old(heap) + [True]
      ensures r.Err? ==> heap == old(heap)
      ensures r.Err? ==> r.error == Refused
      ensures reliable ==> r.Ok?
    {
      r := AddScalar(True);
    }

    method AddFalse() returns (r: Result<Handle, StoreError>)
      requires Valid()
      modifies this
      ensures Valid() && Grows(old(heap), heap) && open == old(open)
      ensures r.Ok? ==> r.value < |heap| && Reify(heap, r.value) == TFalse && Partials() == old(Partials())
      ensures r.Ok? ==> heap == old(heap) + [False]
      ensures r.Err? ==> heap == old(heap)
      ensures r.Err? ==> r.error == Refused
      ensures reliable ==> r.Ok?
    {
      r := AddScalar(False);
    }

    method AddUnit() returns (r: Result<Handle, StoreError>)
      requires Valid()
      modifies this
      ensures Valid() && Grows(old(heap), heap) && open == old(open)
      ensures r.Ok? ==> r.value < |heap| && Reify(heap, r.value) == TUnit && Partials() == old(Partials())
      ensures r.Ok? ==> heap == old(heap) + [Unit]
      ensures r.Err? ==> heap == old(heap)
      ensures r.Err? ==> r.error == Refused
      ensures reliable ==> r.Ok?
    {
      r := AddScalar(Unit);
    }

    method AddNumber(n: int) returns (r: Result<Handle, StoreError>)
      requires Valid()
      modifies this
      ensures Valid() && Grows(old(heap), heap) && open == old(open)
      ensures r.Ok? ==> r.value < |heap| && Reify(heap, r.value) == TNumber(n) && Partials() == old(Partials())
      ensures r.Ok? ==> heap == old(heap) + [Number(n)]
      ensures r.Err? ==> heap == old(heap)
      ensures r.Err? ==> r.error == Refused
      ensures reliable ==> r.Ok?
    {
      r := AddScalar(Number(n));
    }

    method AddChar(c: char) returns (r: Result<Handle, StoreError>)
      requires Valid()
      modifies this
      ensures Valid() && Grows(old(heap), heap) && open == old(open)
      ensures r.Ok? ==> r.value < |heap| && Reify(heap, r.value) == TChar(c) && Partials() == old(Partials())
      ensures r.Ok? ==> heap == old(heap) + [Char(c)]
      ensures r.Err? ==> heap == old(heap)
      ensures r.Err? ==> r.error == Refused
      ensures reliable ==> r.Ok?
    {
      r := AddScalar(Char(c));
    }

    /** Interns a symbol parsed from `name`. */
    method ParseAddSymbol(name: string) returns (r: Result<Handle, StoreError>)
      requires Valid()
      modifies this
      ensures Valid() && Grows(old(heap), heap) && open == old(open)
      ensures r.Ok? ==> r.value < |heap| && Reify(heap, r.value) == TSymbol(name) && Partials() == old(Partials())
      ensures r.Ok? ==> heap == old(heap) + [Symbol(name)]
      ensures r.Err? ==> heap == old(heap)
      ensures r.Err? ==> r.error == Refused
      ensures reliable ==> r.Ok?
    {
      r := AddScalar(Symbol(name));
    }

    /** Converts the value at `h` into a symbol with the store's own conversion. */
    method AddSymbolFrom(h: Handle) returns (r: Result<Handle, StoreError>)
      requires Valid()
      modifies this
      ensures Valid() && Grows(old(heap), heap) && open == old(open)
      ensures r.Ok? ==> h < |old(heap)| && r.value < |heap| && Partials() == old(Partials())
      ensures r.Ok? ==> Reify(heap, r.value) == TSymbol(symbolOf(Reify(old(heap), h)))
      ensures r.Err? ==> heap == old(heap)
      ensures h >= |old(heap)| ==> r.Err?
      ensures h < |old(heap)| && r.Err? ==> r.error == Refused
      ensures reliable && h < |old(heap)| ==> r.Ok?
    {
      if h >= |heap| {
        GrowsByAppending(heap, heap);
        return Err(BadHandle(h));
      }
      r := AddScalar(Symbol(symbolOf(Reify(heap, h))));
    }

    method AddPair(left: Handle, right: Handle) returns (r: Result<Handle, StoreError>)
      requires Valid()
      modifies this
      ensures Valid() && Grows(old(heap), heap) && open == old(open)
      ensures r.Ok? ==> left < |old(heap)| && right < |old(heap)| && r.value < |heap| && Partials() == old(Partials())
      ensures r.Ok? ==> Reify(heap, r.value) == TPair(Reify(old(heap), left), Reify(old(heap), right))
      ensures r.Ok? ==> heap == old(heap) + [Pair(left, right)]
      ensures r.Err? ==> heap == old(heap)
      ensures left < |old(heap)| && right < |old(heap)| && r.Err? ==> r.error == Refused
      ensures reliable && left < |old(heap)| && right < |old(heap)| ==> r.Ok?
    {
      GrowsByAppending(heap, heap);
      var refused := Refuse();
      if refused {
        return Err(Refused);
      } else if left >= |heap| {
        return Err(BadHandle(left));
      } else if right >= |heap| {
        return Err(BadHandle(right));
      }
      var h := Allocate(Pair(left, right));
      return Ok(h);
    }

    /** Opens a new list on top of the stack; `hint` is an advisory capacity. */
    method StartList(hint: nat) returns (r: Result<(), StoreError>)
      requires Valid()
      modifies this
      ensures Valid() && heap == old(heap)
      ensures r.Ok? ==> open == old(open) + [ListOpen([])]
      ensures r.Ok? ==> Partials() == old(Partials()) + [PartialList([])]
      ensures r.Err? ==> open == old(open) && r.error == Refused
      ensures reliable ==> r.Ok?
    {
      var refused := Refuse();
      if refused {
        return Err(Refused);
      }
      open := open + [ListOpen([])];
      assert open[..|open| - 1] == old(open);
      return Ok(());
    }

    /** Appends `h` with flag `assoc` to the list on top of the stack. */
    method AddToList(h: Handle, assoc: bool) returns (r: Result<(), StoreError>)
      requires Valid()
      modifies this
      ensures Valid() && heap == old(heap)
      ensures r.Ok? ==> TopIsList(old(Partials())) && h < |heap|
      ensures r.Ok? ==> Partials() == Pop(old(Partials())) + [PartialList(Top(old(Partials())).items + [Item(Reify(heap, h), assoc)])]
      ensures r.Err? ==> open == old(open)
      ensures !TopIsList(old(Partials())) ==> r.Err?
      ensures TopIsList(old(Partials())) && h < |heap| && r.Err? ==> r.error == Refused
      ensures reliable && TopIsList(old(Partials())) && h < |heap| ==> r.Ok?
    {
      var refused := Refuse();
      if refused {
        return Err(Refused);
      } else if open == [] || !Top(open).ListOpen? {
        return Err(NoOpenList);
      } else if h >= |heap| {
        return Err(BadHandle(h));
      }
      var entries := Top(open).entries;
      var rest := Pop(open);
      open := rest + [ListOpen(entries + [Entry(h, assoc)])];
      assert open[..|open| - 1] == rest;
      assert (entries + [Entry(h, assoc)])[..|entries|] == entries;
      assert PartialsOf(heap, old(open)) == PartialsOf(heap, rest) + [PartialList(ReifyEntries(heap, entries, |heap|))];
      return Ok(());
    }

    /** Closes the list on top of the stack and allocates it. */
    method EndList() returns (r: Result<Handle, StoreError>)
      requires Valid()
      modifies this
      ensures Valid() && Grows(old(heap), heap)
      ensures r.Ok? ==> TopIsList(old(Partials())) && r.value < |heap|
      ensures r.Ok? ==> Reify(heap, r.value) == TList(Top(old(Partials())).items)
      ensures r.Ok? ==> Partials() == Pop(old(Partials())) && open == Pop(old(open))
      ensures r.Ok? ==> heap == old(heap) + [List(Top(old(open)).entries)]
      ensures r.Err? ==> heap == old(heap) && open == old(open)
      ensures !TopIsList(old(Partials())) ==> r.Err?
      ensures TopIsList(old(Partials())) && r.Err? ==> r.error == Refused
      ensures reliable && TopIsList(old(Partials())) ==> r.Ok?
    {
      GrowsByAppending(heap, heap);
      var refused := Refuse();
      if refused {
        return Err(Refused);
      } else if open == [] || !Top(open).ListOpen? {
        return Err(NoOpenList);
      }
      var entries := Top(open).entries;
      var rest := Pop(open);
      assert OpenBelow(open[|open| - 1], |heap|);
      assert PartialsOf(heap, open) == PartialsOf(heap, rest) + [PartialList(ReifyEntries(heap, entries, |heap|))];
      open := rest;
      var h := Allocate(List(entries));
      ReifyEntriesExtends(old(heap), heap, entries, h);
      return Ok(h);
    }

    method StartCharList() returns (r: Result<(), StoreError>)
      requires Valid()
      modifies this
      ensures Valid() && heap == old(heap)
      ensures r.Ok? ==> open == old(open) + [CharsOpen([])]
      ensures r.Ok? ==> Partials() == old(Partials()) + [PartialChars([])]
      ensures r.Err? ==> open == old(open) && r.error == Refused
      ensures reliable ==> r.Ok?
    {
      var refused := Refuse();
      if refused {
        return Err(Refused);
      }
      open := open + [CharsOpen([])];
      assert open[..|open| - 1] == old(open);
      return Ok(());
    }

    method AddToCharList(c: char) returns (r: Result<(), StoreError>)
      requires Valid()
      modifies this
      ensures Valid() && heap == old(heap)
      ensures r.Ok? ==> |old(open)| > 0 && Top(old(open)).CharsOpen?
      ensures r.Ok? ==> open == Pop(old(open)) + [CharsOpen(Top(old(open)).chars + [c])]
      ensures r.Err? ==> open == old(open)
      ensures |old(open)| > 0 && Top(old(open)).CharsOpen? && r.Err? ==> r.error == Refused
      ensures reliable && |old(open)| > 0 && Top(old(open)).CharsOpen? ==> r.Ok?
    {
      var refused := Refuse();
      if refused {
        return Err(Refused);
      } else if open == [] || !Top(open).CharsOpen? {
        return Err(NoOpenCharList);
      }
      open := Pop(open) + [CharsOpen(Top(open).chars + [c])];
      assert forall j :: 0 <= j < |open| - 1 ==> open[j] == old(open)[j];
      return Ok(());
    }

    method EndCharList() returns (r: Result<Handle, StoreError>)
      requires Valid()
      modifies this
      ensures Valid() && Grows(old(heap), heap)
      ensures r.Ok? ==> |old(open)| > 0 && Top(old(open)).CharsOpen? && r.value < |heap|
      ensures r.Ok? ==> Reify(heap, r.value) == TCharList(Top(old(open)).chars)
      ensures r.Ok? ==> open == Pop(old(open)) && heap == old(heap) + [CharList(Top(old(open)).chars)]
      ensures r.Ok? ==> Partials() == Pop(old(Partials()))
      ensures r.Err? ==> heap == old(heap) && open == old(open)
      ensures |old(open)| > 0 && Top(old(open)).CharsOpen? && r.Err? ==> r.error == Refused
      ensures reliable && |old(open)| > 0 && Top(old(open)).CharsOpen? ==> r.Ok?
    {
      GrowsByAppending(heap, heap);
      var refused := Refuse();
      if refused {
        return Err(Refused);
      } else if open == [] || !Top(open).CharsOpen? {
        return Err(NoOpenCharList);
      }
      var chars := Top(open).chars;
      open := Pop(open);
      var h := Allocate(CharList(chars));
      return Ok(h);
    }

    method StartByteList() returns (r: Result<(), StoreError>)
      requires Valid()
      modifies this
      ensures Valid() && heap == old(heap)
      ensures r.Ok? ==> open == old(open) + [BytesOpen([])]
      ensures r.Err? ==> open == old(open) && r.error == Refused
      ensures reliable ==> r.Ok?
    {
      var refused := Refuse();
      if refused {
        return Err(Refused);
      }
      open := open + [BytesOpen([])];
      return Ok(());
    }

    method AddToByteList(b: bv8) returns (r: Result<(), StoreError>)
      requires Valid()
      modifies this
      ensures Valid() && heap == old(heap)
      ensures r.Ok? ==> |old(open)| > 0 && Top(old(open)).BytesOpen?
      ensures r.Ok? ==> open == Pop(old(open)) + [BytesOpen(Top(old(open)).bytes + [b])]
      ensures r.Err? ==> open == old(open)
      ensures |old(open)| > 0 && Top(old(open)).BytesOpen? && r.Err? ==> r.error == Refused
      ensures reliable && |old(open)| > 0 && Top(old(open)).BytesOpen? ==> r.Ok?
    {
      var refused := Refuse();
      if refused {
        return Err(Refused);
      } else if open == [] || !Top(open).BytesOpen? {
        return Err(NoOpenByteList);
      }
      open := Pop(open) + [BytesOpen(Top(open).bytes + [b])];
      assert forall j :: 0 <= j < |open| - 1 ==> open[j] == old(open)[j];
      return Ok(());
    }

    method EndByteList() returns (r: Result<Handle, StoreError>)
      requires Valid()
      modifies this
      ensures Valid() && Grows(old(heap), heap)
      ensures r.Ok? ==> |old(open)| > 0 && Top(old(open)).BytesOpen? && r.value < |heap|
      ensures r.Ok? ==> Reify(heap, r.value) == TByteList(Top(old(open)).bytes)
      ensures r.Ok? ==> open == Pop(old(open)) && heap == old(heap) + [ByteList(Top(old(open)).bytes)]
      ensures r.Ok? ==> Partials() == Pop(old(Partials()))
      ensures r.Err? ==> heap == old(heap) && open == old(open)
      ensures |old(open)| > 0 && Top(old(open)).BytesOpen? && r.Err? ==> r.error == Refused
      ensures reliable && |old(open)| > 0 && Top(old(open)).BytesOpen? ==> r.Ok?
    {
      GrowsByAppending(heap, heap);
      var refused := Refuse();
      if refused {
        return Err(Refused);
      } else if open == [] || !Top(open).BytesOpen? {
        return Err(NoOpenByteList);
      }
      var bytes := Top(open).bytes;
      open := Pop(open);
      var h := Allocate(ByteList(bytes));
      return Ok(h);
    }
  }
}
