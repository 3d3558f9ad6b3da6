/** What validation refuses, by path: a document is valid exactly if every node the policy
    governs is locally what its schema asks for. */
module ConfigValidity {
  import opened Common
  import opened ConfigSchema
  import opened ConfigStrip

  /** The schema that governs the node at a path, if the policy reaches it. */
  function SchemaAt(v: Value, s: Schema, path: seq<Step>): Option<Schema> {
    if path == [] then Some(s)
    else match (Child(v, path[0]), ChildSchema(v, s, path[0]))
         case (Some(c), Some(cs)) => SchemaAt(c, cs, path[1..])
         case _ => None
  }

  ghost predicate NamesPresent(m: map<Key, Value>, names: seq<string>) {
    forall name :: name in names ==> StringKey(name) in m
  }

  /** What a schema asks of one node, leaving its children to their own schemas: the kind of value,
      the required fields, a known variant, and no field that is unknown where unknown fields are
      rejected or that belongs to another variant. */
  ghost predicate LocallyValid(v: Value, s: Schema) {
    match s
    case StringNode => v.Text?
    case ManagedDrop => true
    case ManagedReplace => true
    case SequenceOf(_) => v.Sequence?
    case NamedMap(_) => v.Mapping? && forall k :: k in v.entries ==> k.StringKey? && k.s != ""
    case MappingOf(fields, required, additional) =>
      v.Mapping? && NamesPresent(v.entries, required) &&
      forall k :: k in v.entries ==> k.StringKey? && (additional.Reject? ==> k.s in fields.of)
    case Discriminated(discriminator, common, variants, required, variantRequired, additional) =>
      v.Mapping? && StringKey(discriminator) in v.entries && v.entries[StringKey(discriminator)].Text? &&
      var name := v.entries[StringKey(discriminator)].s;
      name in variants && NamesPresent(v.entries, required) &&
      (name in variantRequired ==> NamesPresent(v.entries, variantRequired[name])) &&
      forall k :: k in v.entries ==>
        k.StringKey? &&
        (k.s in common.of || k.s in variants[name].of ||
         (additional.CorePassthrough? && forall other :: other in variants ==> k.s !in variants[other].of))
  }

  ghost predicate ValidAt(v: Value, s: Schema, path: seq<Step>) {
    match (Lookup(v, path), SchemaAt(v, s, path))
    case (Some(x), Some(xs)) => LocallyValid(x, xs)
    case _ => true
  }

  /** A node is valid if it is locally, and its governed children are valid. */
  lemma ValidByChildren(v: Value, s: Schema)
    ensures ValidNode(v, s) <==>
              LocallyValid(v, s) &&
              forall step :: Child(v, step).Some? && ChildSchema(v, s, step).Some? ==>
                ValidNode(Child(v, step).value, ChildSchema(v, s, step).value)
  {
    if ValidNode(v, s) {
      ValidIsLocal(v, s);
      forall step | Child(v, step).Some? && ChildSchema(v, s, step).Some?
        ensures ValidNode(Child(v, step).value, ChildSchema(v, s, step).value)
      {
        ValidChild(v, s, step);
      }
    }
    if LocallyValid(v, s) &&
       forall step :: Child(v, step).Some? && ChildSchema(v, s, step).Some? ==>
         ValidNode(Child(v, step).value, ChildSchema(v, s, step).value) {
      LocalIsValid(v, s);
    }
  }

  lemma ValidIsLocal(v: Value, s: Schema)
    requires ValidNode(v, s)
    ensures LocallyValid(v, s)
  {
  }

  lemma ValidChild(v: Value, s: Schema, step: Step)
    requires ValidNode(v, s) && Child(v, step).Some? && ChildSchema(v, s, step).Some?
    ensures ValidNode(Child(v, step).value, ChildSchema(v, s, step).value)
  {
  }

  lemma LocalIsValid(v: Value, s: Schema)
    requires LocallyValid(v, s)
    requires forall step :: Child(v, step).Some? && ChildSchema(v, s, step).Some? ==>
               ValidNode(Child(v, step).value, ChildSchema(v, s, step).value)
    ensures ValidNode(v, s)
  {
    match s
    case SequenceOf(item) =>
      forall i | 0 <= i < |v.items| ensures ValidNode(v.items[i], item) {
        assert Child(v, Index(i)).Some?;
      }
    case MappingOf(fields, required, additional) =>
      forall k | k in v.entries && k.s in fields.of ensures ValidNode(v.entries[k], fields.of[k.s]) {
        assert Child(v, Field(k)).Some?;
      }
      assert HasRequired(v.entries, required);
    case NamedMap(value) =>
      forall k | k in v.entries ensures ValidNode(v.entries[k], value) {
        assert Child(v, Field(k)).Some?;
      }
    case Discriminated(discriminator, common, variants, required, variantRequired, additional) =>
      var name := v.entries[StringKey(discriminator)].s;
      forall k | k in v.entries && FieldSchema2(common, variants[name], k).Some?
        ensures ValidNode(v.entries[k], FieldSchema2(common, variants[name], k).value)
      {
        assert Child(v, Field(k)).Some?;
      }
    case _ =>
  }

  /** Main result. A document is valid exactly if every node of it that the policy governs is
      locally valid: so every refusal is of one node, for one of the listed reasons. */
  lemma {:induction false} ValidExactly(v: Value, s: Schema)
    ensures ValidNode(v, s) <==> forall path :: ValidAt(v, s, path)
    decreases s
  {
    ValidByChildren(v, s);
    if ValidNode(v, s) {
      forall path ensures ValidAt(v, s, path) {
        ValidOnPath(v, s, path);
      }
    } else if LocallyValid(v, s) {
      var step :| Child(v, step).Some? && ChildSchema(v, s, step).Some? &&
                  !ValidNode(Child(v, step).value, ChildSchema(v, s, step).value);
      var c, cs := Child(v, step).value, ChildSchema(v, s, step).value;
      ChildIsSmaller(v, s, step);
      ValidExactly(c, cs);
      var rest :| !ValidAt(c, cs, rest);
      var path := [step] + rest;
      assert path[0] == step && path[1..] == rest;
      assert !ValidAt(v, s, path);
    } else {
      assert !ValidAt(v, s, []);
    }
  }

  lemma ChildIsSmaller(v: Value, s: Schema, step: Step)
    requires Child(v, step).Some? && ChildSchema(v, s, step).Some?
    ensures s decreases to ChildSchema(v, s, step).value
  {
  }

  lemma {:induction false} ValidOnPath(v: Value, s: Schema, path: seq<Step>)
    requires ValidNode(v, s)
    ensures ValidAt(v, s, path)
    decreases |path|
  {
    ValidIsLocal(v, s);
    if path != [] && Child(v, path[0]).Some? && ChildSchema(v, s, path[0]).Some? {
      ValidChild(v, s, path[0]);
      ValidOnPath(Child(v, path[0]).value, ChildSchema(v, s, path[0]).value, path[1..]);
    }
  }
}
