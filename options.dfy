/**
  * The three independent encoding policies of a serialization session and
  * the builder that assembles them (src/options.rs).
  */
module Options {

  /** How `None` is written: a Symbol `none` or a Unit value. */
  datatype OptionalBehavior = UnitSymbol | UnitValue

  /** Whether struct-like values carry their type name. */
  datatype StructBehavior = ExcludeTyping | IncludeTyping

  /** How an enum variant is identified: bare variant name, `Enum::Variant`, or ordinal. */
  datatype VariantNameBehavior = Short | Full | Index

  datatype SerializationOptions = SerializationOptions(
    optional: OptionalBehavior,
    structTyping: StructBehavior,
    variantName: VariantNameBehavior)

  /** The options a session gets when none are given. */
  function Default(): (o: SerializationOptions)
    ensures o.optional == UnitValue
    ensures o.structTyping == ExcludeTyping
    ensures o.variantName == Full
  {
    SerializationOptions(UnitValue, ExcludeTyping, Full)
  }

  /** Builder setter: replaces the optional policy only. */
  function WithOptional(o: SerializationOptions, b: OptionalBehavior): (r: SerializationOptions)
    ensures r.optional == b
    ensures r.structTyping == o.structTyping && r.variantName == o.variantName
  {
    o.(optional := b)
  }

  /** Builder setter: replaces the struct typing policy only. */
  function WithStructTyping(o: SerializationOptions, b: StructBehavior): (r: SerializationOptions)
    ensures r.structTyping == b
    ensures r.optional == o.optional && r.variantName == o.variantName
  {
    o.(structTyping := b)
  }

  /** Builder setter: replaces the variant naming policy only. */
  function WithVariantName(o: SerializationOptions, b: VariantNameBehavior): (r: SerializationOptions)
    ensures r.variantName == b
    ensures r.optional == o.optional && r.structTyping == o.structTyping
  {
    o.(variantName := b)
  }

  /** Setters on different policies can be applied in either order. */
  lemma SettersCommute(o: SerializationOptions, a: OptionalBehavior, s: StructBehavior, v: VariantNameBehavior)
    ensures WithStructTyping(WithOptional(o, a), s) == WithOptional(WithStructTyping(o, s), a)
    ensures WithVariantName(WithOptional(o, a), v) == WithOptional(WithVariantName(o, v), a)
    ensures WithVariantName(WithStructTyping(o, s), v) == WithStructTyping(WithVariantName(o, v), s)
  {
  }

  /** Applying a setter twice keeps the last value. */
  lemma SettersLastWins(o: SerializationOptions,
                        a1: OptionalBehavior, a2: OptionalBehavior,
                        s1: StructBehavior, s2: StructBehavior,
                        v1: VariantNameBehavior, v2: VariantNameBehavior)
    ensures WithOptional(WithOptional(o, a1), a2) == WithOptional(o, a2)
    ensures WithStructTyping(WithStructTyping(o, s1), s2) == WithStructTyping(o, s2)
    ensures WithVariantName(WithVariantName(o, v1), v2) == WithVariantName(o, v2)
  {
  }

  /** Setting a policy to the value it already has changes nothing. */
  lemma SettersIdempotent(o: SerializationOptions)
    ensures WithOptional(o, o.optional) == o
    ensures WithStructTyping(o, o.structTyping) == o
    ensures WithVariantName(o, o.variantName) == o
  {
  }

  // The derived orderings of the three enums follow declaration order.

  function OptionalRank(b: OptionalBehavior): nat
  {
    match b
    case UnitSymbol => 0
    case UnitValue => 1
  }

  function StructRank(b: StructBehavior): nat
  {
    match b
    case ExcludeTyping => 0
    case IncludeTyping => 1
  }

  function VariantRank(b: VariantNameBehavior): nat
  {
    match b
    case Short => 0
    case Full => 1
    case Index => 2
  }

  predicate OptionalLess(a: OptionalBehavior, b: OptionalBehavior) { OptionalRank(a) < OptionalRank(b) }
  predicate StructLess(a: StructBehavior, b: StructBehavior) { StructRank(a) < StructRank(b) }
  predicate VariantLess(a: VariantNameBehavior, b: VariantNameBehavior) { VariantRank(a) < VariantRank(b) }

  /** `UnitSymbol < UnitValue`, `ExcludeTyping < IncludeTyping`, `Short < Full < Index`. */
  lemma DeclarationOrder()
    ensures OptionalLess(UnitSymbol, UnitValue)
    ensures StructLess(ExcludeTyping, IncludeTyping)
    ensures VariantLess(Short, Full) && VariantLess(Full, Index)
  {
  }

  /** Each ordering is a strict total order: exactly one of a < b, a == b, b < a holds. */
  lemma OrdersAreTotal(a1: OptionalBehavior, b1: OptionalBehavior,
                       a2: StructBehavior, b2: StructBehavior,
                       a3: VariantNameBehavior, b3: VariantNameBehavior)
    ensures OptionalLess(a1, b1) || a1 == b1 || OptionalLess(b1, a1)
    ensures !(OptionalLess(a1, b1) && OptionalLess(b1, a1)) && !OptionalLess(a1, a1)
    ensures StructLess(a2, b2) || a2 == b2 || StructLess(b2, a2)
    ensures !(StructLess(a2, b2) && StructLess(b2, a2)) && !StructLess(a2, a2)
    ensures VariantLess(a3, b3) || a3 == b3 || VariantLess(b3, a3)
    ensures !(VariantLess(a3, b3) && VariantLess(b3, a3)) && !VariantLess(a3, a3)
  {
  }
}
