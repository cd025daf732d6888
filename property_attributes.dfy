/** Per-property metadata (`PropertyAttributes`) and its defaults. */
module Attributes {

  import opened PyValues

  /** The fields of a `PropertyAttributes` record. */
  datatype AttrField = Decimals | Minimum | Maximum | SingleStep | Hidden | EnumNames | ReadOnly | Docstring

  datatype PropertyAttributes = PropertyAttributes(
    decimals: Value,
    minimum: Value,
    maximum: Value,
    singleStep: Value,
    hidden: Value,
    enumNames: Value,
    readOnly: Value,
    docstring: Value)
  {
    /** `attributes[field]`. */
    function Get(f: AttrField): Value {
      match f
      case Decimals => decimals
      case Minimum => minimum
      case Maximum => maximum
      case SingleStep => singleStep
      case Hidden => hidden
      case EnumNames => enumNames
      case ReadOnly => readOnly
      case Docstring => docstring
    }

    /** `attributes[field] = v`: that field takes the new value and no other field changes. */
    function With(f: AttrField, v: Value): (r: PropertyAttributes)
      ensures r.Get(f) == v
      ensures forall g :: g != f ==> r.Get(g) == Get(g)
    {
      match f
      case Decimals => this.(decimals := v)
      case Minimum => this.(minimum := v)
      case Maximum => this.(maximum := v)
      case SingleStep => this.(singleStep := v)
      case Hidden => this.(hidden := v)
      case EnumNames => this.(enumNames := v)
      case ReadOnly => this.(readOnly := v)
      case Docstring => this.(docstring := v)
    }
  }

  /** `PropertyAttributes()`: five decimals, range -1e4..1e4, step 1, visible, no enum labels, editable, no docstring. */
  const Defaults := PropertyAttributes(
    Int(5), Num(-10000.0), Num(10000.0), Int(1), Bool(false), NoneValue, Bool(false), Str(""))

  /** `PropertyAttributes(**kwargs)`: the given fields over the defaults. */
  function MakeAttributes(kwargs: map<AttrField, Value>): (r: PropertyAttributes)
    ensures forall f :: f in kwargs ==> r.Get(f) == kwargs[f]
    ensures forall f :: f !in kwargs ==> r.Get(f) == Defaults.Get(f)
    ensures kwargs == map[] ==> r == Defaults
  {
    var pick := (f: AttrField) => if f in kwargs then kwargs[f] else Defaults.Get(f);
    PropertyAttributes(
      pick(Decimals), pick(Minimum), pick(Maximum), pick(SingleStep),
      pick(Hidden), pick(EnumNames), pick(ReadOnly), pick(Docstring))
  }
}
