/** The recursive configuration policy of `src/config.rs`: validation, stripping of
    managed fields, and the privileged check that managed fields are absent.

    A YAML mapping is a finite map, so key order is not represented; a validation
    result is acceptance or rejection, so which error comes first is not represented. */
module ConfigSchema {
  import opened Common

  datatype Key = StringKey(s: string) | OtherKey(id: int)

  datatype Value =
    | Null
    | Boolean(b: bool)
    | Number(n: int)
    | Text(s: string)
    | Sequence(items: seq<Value>)
    | Mapping(entries: map<Key, Value>)

  datatype AdditionalFields = Reject | CorePassthrough

  datatype Fields = Fields(of: map<string, Schema>)

  datatype Schema =
    | StringNode
    | ManagedDrop
    | ManagedReplace
    | SequenceOf(item: Schema)
    | MappingOf(fields: Fields, required: seq<string>, additional: AdditionalFields)
    | NamedMap(value: Schema)
    | Discriminated(discriminator: string, common: Fields, variants: map<string, Fields>,
                    required: seq<string>, variantRequired: map<string, seq<string>>,
                    additional: AdditionalFields)

  predicate Managed(s: Schema) {
    s.ManagedDrop? || s.ManagedReplace?
  }

  /** The schema a field set gives to a document key, if any. */
  function FieldSchema(f: Fields, k: Key): Option<Schema> {
    if k.StringKey? && k.s in f.of then Some(f.of[k.s]) else None
  }

  function FieldSchema2(common: Fields, variant: Fields, k: Key): Option<Schema> {
    if FieldSchema(common, k).Some? then FieldSchema(common, k) else FieldSchema(variant, k)
  }

  function SelectVariant(m: map<Key, Value>, discriminator: string, variants: map<string, Fields>): Option<Fields> {
    var k := StringKey(discriminator);
    if k in m && m[k].Text? && m[k].s in variants then Some(variants[m[k].s]) else None
  }

  // ---------------------------------------------------------------------------
  // Validation
  // ---------------------------------------------------------------------------

  predicate HasRequired(m: map<Key, Value>, required: seq<string>) {
    forall i :: 0 <= i < |required| ==> StringKey(required[i]) in m
  }

  predicate ValidNode(v: Value, s: Schema)
    decreases s
  {
    match s
    case ManagedDrop => true
    case ManagedReplace => true
    case StringNode => v.Text?
    case SequenceOf(item) =>
      v.Sequence? && forall i :: 0 <= i < |v.items| ==> ValidNode(v.items[i], item)
    case MappingOf(fields, required, additional) =>
      v.Mapping? && HasRequired(v.entries, required) && ValidMapping(v.entries, fields, additional)
    case NamedMap(value) =>
      v.Mapping? && forall k :: k in v.entries ==>
        k.StringKey? && k.s != "" && ValidNode(v.entries[k], value)
    case Discriminated(discriminator, common, variants, required, variantRequired, additional) =>
      v.Mapping? &&
      var m := v.entries;
      var variant := SelectVariant(m, discriminator, variants);
      variant.Some? && HasRequired(m, required) &&
      var name := m[StringKey(discriminator)].s;
      (name in variantRequired ==> HasRequired(m, variantRequired[name])) &&
      forall k :: k in m ==>
        k.StringKey? &&
        if k.s in common.of then ValidNode(m[k], common.of[k.s])
        else if k.s in variants[name].of then ValidNode(m[k], variants[name].of[k.s])
        else additional.CorePassthrough? && forall other :: other in variants ==> k.s !in variants[other].of
  }

  predicate ValidMapping(m: map<Key, Value>, f: Fields, additional: AdditionalFields)
    decreases f
  {
    forall k :: k in m ==>
      k.StringKey? && if k.s in f.of then ValidNode(m[k], f.of[k.s]) else additional.CorePassthrough?
  }

  // ---------------------------------------------------------------------------
  // Stripping managed fields
  // ---------------------------------------------------------------------------

  function StripMapping(m: map<Key, Value>, f: Fields): (r: map<Key, Value>)
    decreases f
  {
    map k | k in m && !(k.StringKey? && k.s in f.of && Managed(f.of[k.s])) ::
      if k.StringKey? && k.s in f.of then StripNode(m[k], f.of[k.s]) else m[k]
  }

  function StripNode(v: Value, s: Schema): (r: Value)
    decreases s
  {
    match (v, s)
    case (Sequence(items), SequenceOf(item)) =>
      Sequence(seq(|items|, i requires 0 <= i < |items| => StripNode(items[i], item)))
    case (Mapping(m), MappingOf(fields, _, _)) =>
      Mapping(StripMapping(m, fields))
    case (Mapping(m), NamedMap(value)) =>
      Mapping(map k | k in m :: StripNode(m[k], value))
    case (Mapping(m), Discriminated(discriminator, common, variants, _, _, _)) =>
      var variant := SelectVariant(m, discriminator, variants);
      if variant.None? then v
      else Mapping(StripMapping(StripMapping(m, common), variants[m[StringKey(discriminator)].s]))
    case _ => v
  }

  // ---------------------------------------------------------------------------
  // The privileged side: no managed-drop field is left
  // ---------------------------------------------------------------------------

  predicate AbsentMapping(m: map<Key, Value>, f: Fields)
    decreases f
  {
    forall field :: field in f.of && StringKey(field) in m ==>
      !f.of[field].ManagedDrop? &&
      (!f.of[field].ManagedReplace? ==> AbsentNode(m[StringKey(field)], f.of[field]))
  }

  predicate AbsentNode(v: Value, s: Schema)
    decreases s
  {
    match (v, s)
    case (_, ManagedDrop) => false
    case (_, ManagedReplace) => true
    case (Sequence(items), SequenceOf(item)) =>
      forall i :: 0 <= i < |items| ==> AbsentNode(items[i], item)
    case (Mapping(m), MappingOf(fields, _, _)) =>
      AbsentMapping(m, fields)
    case (Mapping(m), NamedMap(value)) =>
      forall k :: k in m ==> k.StringKey? && AbsentNode(m[k], value)
    case (Mapping(m), Discriminated(discriminator, common, variants, _, _, _)) =>
      SelectVariant(m, discriminator, variants).Some? &&
      var variant := variants[m[StringKey(discriminator)].s];
      forall k :: k in m ==>
        k.StringKey? &&
        if k.s in common.of then AbsentNode(m[k], common.of[k.s])
        else if k.s in variant.of then AbsentNode(m[k], variant.of[k.s])
        else true
    case _ => true
  }
}
