# Garnish serde encoder, modelled in Dafny

This project models the encoder of `serde-garnish`: `GarnishDataSerializer`
walks one serde value and builds it, bottom up, in a Garnish data store, and
returns the handle of the finished value. The model has these parts:

- `wrappers.dfy`: `Option` and `Result`.
- `options.dfy` (module `Options`): the three policy enums and the options
  builder.
- `error.dfy` (module `Errors`): `GarnishSerializationError`, which carries
  either a wrapped store error or a message, and `wrap_err`.
- `store.dfy` (module `GarnishStore`): the store the encoder writes into.
  - It is a class whose heap is a `seq<Value>` addressed by handles.
  - A stack of open lists, char lists and byte lists lets lists nest, as
    they do when an element of a sequence is itself a sequence.
  - `Reify` gives the tree a handle denotes. `Grows` says that a heap only
    gained cells and that old handles still denote the same trees.
  - An unreliable store may refuse any operation, which the model expresses
    as a nondeterministic failure. A reliable store refuses nothing, so its
    operations fail only when misused: an append or end with no open list
    on top, or a handle that does not exist.
  - `add_symbol_from` (the store's conversion of a key into a symbol) is the
    uninterpreted function `symbolOf`.
- `encoding.dfy`: two modules.
  - `Serde` is the closed set of input shapes serde presents to a serializer.
  - `Encoding.Encode` is a reference definition of the tree the encoder
    produces for each shape. It also gives the `struct_sym`/`pending_key`
    session left behind.
- `serializer.dfy` (module `Serializer`): the class `GarnishDataSerializer`.
  - Its fields are `data`, `dataAddr`, `structSym`, `pendingKey` and
    `options`.
  - It has one method per serde entry point.
  - `Serialize(v)` dispatches on the input shape as `value.serialize(..)`
    does.
  - Every method that writes a value promises that, on success, the
    returned handle denotes `Encode(...).tree` and the session becomes
    `Encode(...).after`.
  - Every such method also promises that, on a reliable store, it succeeds.
    The exceptions are the ones the code has: `serialize_value` with no
    pending key, and an element, field, value or `end` with no open list on
    top. Apart from those, any failure is the store's refusal, wrapped by
    `wrap_err`. So the encoder's own start/append/end sequence never
    misuses the store.
- `properties.dfy` (module `Properties`): what the encoded trees look like,
  proved about `Encode`.

How the code lays out the compound and optional cases:

- A typed struct or tuple struct whose body holds no struct-like comes out
  as the two-item list `[Symbol(name), body]` (`end_struct_like`,
  src/serializer.rs:74-91; `TypedStructShape`, `TypedTupleStructShape`).
- A typed unit struct is `[Symbol(name), Unit]` (src/serializer.rs:205-218).
- `None` under the symbol policy is a bare `Symbol("none")`, and `Some(x)` is
  `x` with no wrapper under either policy (src/serializer.rs:187-203).
- The discriminant of a newtype variant is always appended as
  non-associative (src/serializer.rs:265). A tuple or struct variant whose
  body holds no struct-like is `[discriminant, body]`, both items
  non-associative (src/serializer.rs:83-84; `TupleVariantShape`,
  `StructVariantShape`).
- When a field or element is itself a struct-like, its `serialize_*` call
  overwrites `struct_sym` (src/serializer.rs:289, 303, 318, 332) and nothing
  restores it, so `end_struct_like` wraps the outer body in the inner name
  or discriminant and the outer one is never appended (`InnerNameWrapsOuter`;
  see also the quirks below, `StaleSymbolWraps` and
  `VariantSymbolLeaksIntoNextStruct`).

The code's quirks are kept:

- `struct_sym` and `pending_key` are overwritten, never cleared.
- `data_addr` is never set.
- Capacity hints have no effect.

## Model

| member | source | states |
|---|---|---|
| Options.Default | src/options.rs:28-34 | the default options are `UnitValue`, `ExcludeTyping`, `Full` |
| Options.WithOptional | src/options.rs:36-39 | sets the optional policy to the argument and leaves the other two unchanged |
| Options.WithStructTyping | src/options.rs:41-44 | sets the struct typing policy and leaves the other two unchanged |
| Options.WithVariantName | src/options.rs:46-49 | sets the variant naming policy and leaves the other two unchanged |
| Options.SettersCommute | src/options.rs:36-49 | setters on different policies commute |
| Options.SettersLastWins | src/options.rs:36-49 | applying a setter twice keeps the last value |
| Options.SettersIdempotent | src/options.rs:36-49 | setting a policy to its current value changes nothing |
| Options.DeclarationOrder | src/options.rs:2-19 | the derived orders follow declaration order: `UnitSymbol < UnitValue`, `ExcludeTyping < IncludeTyping`, `Short < Full < Index` |
| Options.OrdersAreTotal | src/options.rs:2-19 | each derived order is a strict total order |
| Errors.New | src/error.rs:22-27 | `new(e)` has no message, holds `e`, and has exactly one payload |
| Errors.FromStr | src/error.rs:43-48 | the error built from a string holds that string as its message, has no store error, and has exactly one payload |
| Errors.Custom | src/error.rs:83-91 | serde's `custom(msg)` holds the displayed message and no store error; the de-side `custom` at src/error.rs:99-107 is the same |
| Errors.SerializationError.Message | src/error.rs:29-31 | `message()` returns the stored message unchanged; for a well-formed error it is present exactly when no store error is |
| Errors.SerializationError.Error | src/error.rs:33-35 | `error()` returns the stored store error unchanged; for a well-formed error it is present exactly when no message is |
| Errors.WrapErr | src/error.rs:110-116 | `wrap_err(e)` never succeeds and is always `Err(new(e))` |
| Errors.OrElseWrap | src/serializer.rs:69-71 | `.or_else(wrap_err)` keeps a success unchanged and turns a store error into `Err(new(e))` |
| Errors.ConstructorsDistinct | src/error.rs:22-48 | a wrapped store error is told apart from a message error; `From<&str>` and `custom` agree on the same text |
| Serializer.GarnishDataSerializer.constructor | src/serializer.rs:38-46 | `new` uses the default options and starts with no struct symbol and no pending key |
| Serializer.GarnishDataSerializer.WithOptions | src/serializer.rs:48-56 | `new_with_options` keeps the given options and starts with no struct symbol and no pending key |
| Serializer.GarnishDataSerializer.DataAddr | src/serializer.rs:58-60 | `data_addr()` is always None, because nothing sets it |
| Serializer.GarnishDataSerializer.AddConvertibleNumber | src/serializer.rs:62-72 | a number is written as Number(n); on a reliable store it always succeeds, and any failure is the store's refusal, wrapped |
| Serializer.GarnishDataSerializer.SerializeBool | src/serializer.rs:114-119 | true yields True and false yields False; on a reliable store it always succeeds, and any failure is the store's refusal, wrapped |
| Serializer.GarnishDataSerializer.SerializeChar | src/serializer.rs:161-163 | yields Char(c); on a reliable store it always succeeds, and any failure is the store's refusal, wrapped |
| Serializer.GarnishDataSerializer.SerializeStr | src/serializer.rs:165-174 | yields a CharList holding exactly the input characters in order; the open-collection stack is restored; on a reliable store it always succeeds, and any failure is the store's refusal, wrapped |
| Serializer.GarnishDataSerializer.SerializeBytes | src/serializer.rs:176-185 | yields a ByteList holding exactly the input bytes in order; on a reliable store it always succeeds, and any failure is the store's refusal, wrapped |
| Serializer.GarnishDataSerializer.SerializeNone | src/serializer.rs:187-192 | None yields `Symbol("none")` under `UnitSymbol` and Unit under `UnitValue`; on a reliable store it always succeeds, and any failure is the store's refusal, wrapped |
| Serializer.GarnishDataSerializer.SerializeSome | src/serializer.rs:194-199 | Some(x) yields the encoding of x with no wrapper; on a reliable store it always succeeds, and any failure is the store's refusal, wrapped |
| Serializer.GarnishDataSerializer.SerializeUnit | src/serializer.rs:201-203 | yields Unit; on a reliable store it always succeeds, and any failure is the store's refusal, wrapped |
| Serializer.GarnishDataSerializer.SerializeUnitStruct | src/serializer.rs:205-218 | yields Unit under `ExcludeTyping` and the list `[Symbol(name), Unit]` under `IncludeTyping`; on a reliable store it always succeeds, and any failure is the store's refusal, wrapped |
| Serializer.GarnishDataSerializer.SerializeUnitVariant | src/serializer.rs:220-237 | `Full` yields `Symbol(name::variant)`, `Short` yields `Symbol(variant)`, `Index` yields `Number(index)`; on a reliable store it always succeeds, and any failure is the store's refusal, wrapped |
| Serializer.GarnishDataSerializer.SerializeNewtypeStruct | src/serializer.rs:239-248 | yields the encoding of the inner value; on a reliable store it always succeeds, and any failure is the store's refusal, wrapped |
| Serializer.GarnishDataSerializer.SerializeNewtypeVariant | src/serializer.rs:250-269 | yields `[discriminant, value]`, both non-associative, with the list opened before the value is encoded; on a reliable store it always succeeds, and any failure is the store's refusal, wrapped |
| Serializer.GarnishDataSerializer.SerializeSeq | src/serializer.rs:271-276 | opens an empty list on top of the open-collection stack; the heap is unchanged; on a reliable store it always succeeds, and any failure is the store's refusal, wrapped |
| Serializer.GarnishDataSerializer.SerializeTuple | src/serializer.rs:278-280 | opens an empty list, as `serialize_seq` does; on a reliable store it always succeeds, and any failure is the store's refusal, wrapped |
| Serializer.GarnishDataSerializer.SerializeTupleStruct | src/serializer.rs:282-294 | opens an empty list; under `IncludeTyping` the struct symbol becomes `Symbol(name)`, otherwise it is left as it was; on a reliable store it always succeeds, and any failure is the store's refusal, wrapped |
| Serializer.GarnishDataSerializer.SerializeTupleVariant | src/serializer.rs:296-305 | opens an empty list and sets the struct symbol to the discriminant; on a reliable store it always succeeds, and any failure is the store's refusal, wrapped |
| Serializer.GarnishDataSerializer.SerializeMap | src/serializer.rs:307-309 | opens an empty list, as `serialize_seq` does; on a reliable store it always succeeds, and any failure is the store's refusal, wrapped |
| Serializer.GarnishDataSerializer.SerializeStruct | src/serializer.rs:311-323 | opens an empty list; under `IncludeTyping` the struct symbol becomes `Symbol(name)`, otherwise it is left as it was; on a reliable store it always succeeds, and any failure is the store's refusal, wrapped |
| Serializer.GarnishDataSerializer.SerializeStructVariant | src/serializer.rs:325-334 | opens an empty list and sets the struct symbol to the discriminant; on a reliable store it always succeeds, and any failure is the store's refusal, wrapped |
| Serializer.GarnishDataSerializer.SerializeElement | src/serializer.rs:350-356 | appends the element's encoding to the open list, non-associative; the same body serves src/serializer.rs:485-491, 511-517 and 537-543; on a reliable store it succeeds with a list open, and any other failure is the store's refusal, wrapped |
| Serializer.GarnishDataSerializer.End | src/serializer.rs:358-360 | closes the open list and yields the list of its items in order; the same body serves src/serializer.rs:403-405 and 493-495; on a reliable store it succeeds with a list open, and any other failure is the store's refusal, wrapped |
| Serializer.GarnishDataSerializer.SerializeKey | src/serializer.rs:376-385 | encodes the key, converts it to a symbol, and makes that symbol the pending key; on a reliable store it always succeeds, and any failure is the store's refusal, wrapped |
| Serializer.GarnishDataSerializer.SerializeValue | src/serializer.rs:387-401 | with no pending key, fails with "No key when serializing value for map." and changes nothing; otherwise appends `Pair(pending key, value)`, associative, and leaves the key pending; on a reliable store it succeeds with a pending key and a list open, and any other failure is the store's refusal, wrapped |
| Serializer.GarnishDataSerializer.SerializeField | src/serializer.rs:421-433 | appends `Pair(Symbol(field name), value)`, associative; the same body serves src/serializer.rs:453-465; on a reliable store it succeeds with a list open, and any other failure is the store's refusal, wrapped |
| Serializer.GarnishDataSerializer.EndStructLike | src/serializer.rs:74-91 | closes the open list; yields it alone when no struct symbol is set, and otherwise yields `[struct symbol, list]`; on a reliable store it succeeds with a list open, and any other failure is the store's refusal, wrapped |
| Serializer.GarnishDataSerializer.SerializeElements | src/serializer.rs:350-356 | the elements in input order leave the open list extended by exactly their encodings; on a reliable store it always succeeds, and any failure is the store's refusal, wrapped |
| Serializer.GarnishDataSerializer.SerializeFields | src/serializer.rs:421-433 | the fields in call order leave the open list extended by exactly their pairs; on a reliable store it always succeeds, and any failure is the store's refusal, wrapped |
| Serializer.GarnishDataSerializer.SerializeEntry | src/serializer.rs:376-401 | serde's default `serialize_entry` (key, then value) appends one `Pair(key symbol, value)`; on a reliable store it succeeds with a list open, and any other failure is the store's refusal, wrapped |
| Serializer.GarnishDataSerializer.SerializeEntries | src/serializer.rs:376-401 | the entries in order leave the open list extended by exactly their pairs; on a reliable store it always succeeds, and any failure is the store's refusal, wrapped |
| Serializer.GarnishDataSerializer.Serialize | src/serializer.rs:114-334 | any value is written as `Encode` says; the open-collection stack is as before, and old handles keep their meaning; on a reliable store it always succeeds, and any failure is the store's refusal, wrapped |
| Serializer.GarnishDataSerializer.WriteSeq | src/serializer.rs:271-276 | a sequence (open, elements, end) is written as `Encode` says; on a reliable store it always succeeds, and any failure is the store's refusal, wrapped |
| Serializer.GarnishDataSerializer.WriteTuple | src/serializer.rs:278-280 | a tuple is written as `Encode` says; on a reliable store it always succeeds, and any failure is the store's refusal, wrapped |
| Serializer.GarnishDataSerializer.WriteTupleStruct | src/serializer.rs:282-294 | a tuple struct (open, fields, `end_struct_like`) is written as `Encode` says; on a reliable store it always succeeds, and any failure is the store's refusal, wrapped |
| Serializer.GarnishDataSerializer.WriteTupleVariant | src/serializer.rs:296-305 | a tuple variant is written as `Encode` says; on a reliable store it always succeeds, and any failure is the store's refusal, wrapped |
| Serializer.GarnishDataSerializer.WriteMap | src/serializer.rs:307-309 | a map (open, entries, end) is written as `Encode` says; on a reliable store it always succeeds, and any failure is the store's refusal, wrapped |
| Serializer.GarnishDataSerializer.WriteStruct | src/serializer.rs:311-323 | a struct is written as `Encode` says; on a reliable store it always succeeds, and any failure is the store's refusal, wrapped |
| Serializer.GarnishDataSerializer.WriteStructVariant | src/serializer.rs:325-334 | a struct variant is written as `Encode` says; on a reliable store it always succeeds, and any failure is the store's refusal, wrapped |
| Properties.ElementsInOrder | src/serializer.rs:350-356 | a sequence body has one item per element, in input order; item i is element i's encoding, non-associative |
| Properties.SeqIsList | src/serializer.rs:271-276 | a sequence is a list as long as its input, with each element's encoding in order |
| Properties.FieldsInOrder | src/serializer.rs:421-433 | a struct body has one item per field, in order; item i is `Pair(Symbol(field name), value)`, associative |
| Properties.EntriesInOrder | src/serializer.rs:376-401 | a map has one item per entry, in order; item i is `Pair(Symbol(converted key), value)`, associative |
| Properties.TupleIsList | src/serializer.rs:278-280 | a tuple is a list as long as its input, with each element's encoding in order, non-associative; it is encoded exactly as a sequence is |
| Properties.MapIsListOfPairs | src/serializer.rs:307-309 | a map is a list as long as its input, of associative pairs keyed by symbols |
| Properties.NeverCleared | src/serializer.rs:289-332 | once set, neither the struct symbol nor the pending key is ever cleared by encoding a value |
| Properties.EntriesNeverClear | src/serializer.rs:383 | after a non-empty run of map entries a key is pending |
| Properties.MapLeavesKeyPending | src/serializer.rs:391-400 | a non-empty map leaves its last key pending after it is closed |
| Properties.FlatKeepsSym | src/serializer.rs:289-332 | a value holding no struct-like leaves the struct symbol as it found it |
| Properties.TupleVariantShape | src/serializer.rs:296-305 | a tuple variant of such values is `[discriminant, body]` |
| Properties.StructVariantShape | src/serializer.rs:325-334 | a struct variant of such values is `[discriminant, body]` |
| Properties.TypedStructShape | src/serializer.rs:311-323 | under `IncludeTyping` a struct of such values is `[Symbol(name), body]` |
| Properties.UntypedStructShape | src/serializer.rs:74-91 | under `ExcludeTyping`, with no struct symbol set, a struct is its body alone |
| Properties.TypedTupleStructShape | src/serializer.rs:282-294 | under `IncludeTyping` a tuple struct of elements holding no struct-like is `[Symbol(name), element list]` |
| Properties.UntypedTupleStructShape | src/serializer.rs:74-91 | under `ExcludeTyping`, with no struct symbol set, a tuple struct is its element list alone, the same tree as a tuple of the same elements |
| Properties.StaleSymbolWraps | src/serializer.rs:77-90 | under `ExcludeTyping`, a tuple struct encoded while an earlier symbol is still set is wrapped in that stale symbol |
| Properties.VariantSymbolLeaksIntoNextStruct | src/serializer.rs:77-90 | in `[struct variant, untyped struct]` the struct comes out wrapped in the variant's discriminant |
| Properties.InnerNameWrapsOuter | src/serializer.rs:311-323 | with typing included, a struct whose one field is a typed struct of flat fields comes out as `[Symbol(inner), [Pair(Symbol(field), [Symbol(inner), inner body])]]`: the inner `serialize_struct` overwrites `struct_sym`, so the outer name is never appended |

## Left out

- Floating point: `serialize_f32` and `serialize_f64` (src/serializer.rs:153-159) are not modelled.
- Integer widths: the eight integer entry points (src/serializer.rs:121-151) are one `Int` input carrying an unbounded `int`. The number conversions of src/traits.rs are not part of this model; a number is the integer it came from.
- The store: allocation, symbol hashing and the `add_symbol_from` conversion belong to the foreign `GarnishData` store. The model keeps only the effects the encoder relies on, with `symbolOf` uninterpreted and refusal nondeterministic.
- Capacity hints passed to `start_list` are accepted and ignored.
- Decoding: src/deserializer.rs has no behaviour (every method is `todo!()`) and is not part of this model.
- `Debug` and `Display` of the error (src/error.rs:51-69) are text formatting of a foreign error type.
- Errors.Custom: the formatting of the message argument is not modelled; it takes the already displayed text. The ser-side and de-side `custom` share this one function.
- Generic serde dispatch and lifetimes: `Serialize` implementations are replaced by the closed datatype `Serde.Input`. The compound traits (`SerializeSeq` and the rest) are driven through `Serialize` in the order serde's derived implementations call them: open, one call per element, field or entry, then end.
- Serializer.GarnishDataSerializer.SerializeElement and the other methods that take a value: the value is a `Serde.Input` encoded through `Serialize`, not an arbitrary `Serialize` implementation that could call the serializer in another order.
