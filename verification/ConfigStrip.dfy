/** What stripping does to a valid document, stated without the stripping code:
    by validity, by the privileged check, and by the paths of the document. */
module ConfigStrip {
  import opened Common
  import opened ConfigSchema

  // ---------------------------------------------------------------------------
  // Well-formed schemas
  // ---------------------------------------------------------------------------

  ghost predicate UnmanagedIn(f: Fields, names: seq<string>) {
    forall i :: 0 <= i < |names| && names[i] in f.of ==> !Managed(f.of[names[i]])
  }

  ghost predicate StringIfKnown(f: Fields, name: string) {
    name in f.of ==> f.of[name].StringNode?
  }

  /** Managed markers only as field schemas, no required field managed, common and
      variant names disjoint, the discriminator an unmanaged string. */
  ghost predicate WellFormed(s: Schema)
    decreases s
  {
    match s
    case SequenceOf(item) => !Managed(item) && WellFormed(item)
    case NamedMap(value) => !Managed(value) && WellFormed(value)
    case MappingOf(fields, required, _) => UnmanagedIn(fields, required) && WellFormedFields(fields)
    case Discriminated(discriminator, common, variants, required, variantRequired, _) =>
      UnmanagedIn(common, required) && StringIfKnown(common, discriminator) && WellFormedFields(common) &&
      (forall x :: x in variants ==>
        common.of.Keys !! variants[x].of.Keys &&
        StringIfKnown(variants[x], discriminator) &&
        UnmanagedIn(variants[x], required) &&
        (x in variantRequired ==>
           UnmanagedIn(common, variantRequired[x]) && UnmanagedIn(variants[x], variantRequired[x])) &&
        WellFormedFields(variants[x]))
    case _ => true
  }

  ghost predicate WellFormedFields(f: Fields)
    decreases f
  {
    forall k :: k in f.of ==> WellFormed(f.of[k])
  }

  // ---------------------------------------------------------------------------
  // Stripping keeps validity, passes the privileged check, and is idempotent
  // ---------------------------------------------------------------------------

  /** A field set removes nothing but its managed fields. */
  lemma StripMappingDomain(m: map<Key, Value>, f: Fields, k: Key)
    ensures k in StripMapping(m, f) <==> k in m && !(k.StringKey? && k.s in f.of && Managed(f.of[k.s]))
  {
  }

  lemma StripKeepsRequired(m: map<Key, Value>, f: Fields, names: seq<string>)
    requires HasRequired(m, names) && UnmanagedIn(f, names)
    ensures HasRequired(StripMapping(m, f), names)
  {
  }

  /** Selecting the variant is unaffected: the discriminator is an unmanaged string. */
  lemma StripKeepsVariant(m: map<Key, Value>, f: Fields, discriminator: string, variants: map<string, Fields>)
    requires StringIfKnown(f, discriminator)
    requires SelectVariant(m, discriminator, variants).Some?
    ensures StringKey(discriminator) in StripMapping(m, f)
    ensures StripMapping(m, f)[StringKey(discriminator)] == m[StringKey(discriminator)]
  {
  }

  lemma {:induction false} StripNodeKeepsValid(v: Value, s: Schema)
    requires WellFormed(s) && ValidNode(v, s)
    ensures ValidNode(StripNode(v, s), s)
    decreases s
  {
    match s
    case SequenceOf(item) =>
      forall i | 0 <= i < |v.items| ensures ValidNode(StripNode(v.items[i], item), item) {
        StripNodeKeepsValid(v.items[i], item);
      }
    case MappingOf(fields, required, additional) =>
      StripKeepsRequired(v.entries, fields, required);
      StripMappingKeepsValid(v.entries, fields, additional);
    case NamedMap(value) =>
      forall k | k in v.entries ensures ValidNode(StripNode(v.entries[k], value), value) {
        StripNodeKeepsValid(v.entries[k], value);
      }
    case Discriminated(discriminator, common, variants, required, variantRequired, additional) =>
      StripVariantKeepsValid(v.entries, s);
    case _ =>
  }

  lemma {:induction false} StripMappingKeepsValid(m: map<Key, Value>, f: Fields, additional: AdditionalFields)
    requires WellFormedFields(f) && ValidMapping(m, f, additional)
    ensures ValidMapping(StripMapping(m, f), f, additional)
    decreases f
  {
    forall k | k in StripMapping(m, f) && k.StringKey? && k.s in f.of
      ensures ValidNode(StripMapping(m, f)[k], f.of[k.s])
    {
      StripNodeKeepsValid(m[k], f.of[k.s]);
    }
  }

  /** The two passes over a discriminated mapping, field by field. */
  lemma StripVariantEntry(m: map<Key, Value>, common: Fields, variant: Fields, k: Key)
    requires common.of.Keys !! variant.of.Keys
    ensures var r := StripMapping(StripMapping(m, common), variant);
            && (k in r <==> k in m && (FieldSchema2(common, variant, k).Some? ==>
                                         !Managed(FieldSchema2(common, variant, k).value)))
            && (k in r ==> r[k] == match FieldSchema2(common, variant, k)
                                   case Some(fs) => StripNode(m[k], fs)
                                   case None => m[k])
  {
    StripMappingDomain(m, common, k);
    StripMappingDomain(StripMapping(m, common), variant, k);
  }

  lemma {:induction false} StripVariantKeepsValid(m: map<Key, Value>, s: Schema)
    requires s.Discriminated? && WellFormed(s) && ValidNode(Mapping(m), s)
    ensures ValidNode(StripNode(Mapping(m), s), s)
    decreases s, 0
  {
    var name := m[StringKey(s.discriminator)].s;
    var variant := s.variants[name];
    var r := StripMapping(StripMapping(m, s.common), variant);
    assert StripNode(Mapping(m), s) == Mapping(r);
    StripKeepsVariant(m, s.common, s.discriminator, s.variants);
    StripKeepsVariant(StripMapping(m, s.common), variant, s.discriminator, s.variants);
    StripKeepsRequired(m, s.common, s.required);
    StripKeepsRequired(StripMapping(m, s.common), variant, s.required);
    if name in s.variantRequired {
      StripKeepsRequired(m, s.common, s.variantRequired[name]);
      StripKeepsRequired(StripMapping(m, s.common), variant, s.variantRequired[name]);
    }
    forall k | k in r
      ensures k in m && k.StringKey?
      ensures k.s in s.common.of ==> ValidNode(r[k], s.common.of[k.s])
      ensures k.s !in s.common.of && k.s in variant.of ==> ValidNode(r[k], variant.of[k.s])
    {
      StripVariantEntry(m, s.common, variant, k);
      if k.s in s.common.of {
        StripNodeKeepsValid(m[k], s.common.of[k.s]);
      } else if k.s in variant.of {
        StripNodeKeepsValid(m[k], variant.of[k.s]);
      }
    }
  }

  lemma {:induction false} StripNodePassesAbsent(v: Value, s: Schema)
    requires WellFormed(s) && ValidNode(v, s) && !s.ManagedDrop?
    ensures AbsentNode(StripNode(v, s), s)
    decreases s
  {
    match s
    case SequenceOf(item) =>
      forall i | 0 <= i < |v.items| ensures AbsentNode(StripNode(v.items[i], item), item) {
        StripNodePassesAbsent(v.items[i], item);
      }
    case MappingOf(fields, required, additional) =>
      StripMappingPassesAbsent(v.entries, fields, additional);
    case NamedMap(value) =>
      forall k | k in v.entries ensures AbsentNode(StripNode(v.entries[k], value), value) {
        StripNodePassesAbsent(v.entries[k], value);
      }
    case Discriminated(discriminator, common, variants, required, variantRequired, additional) =>
      var m := v.entries;
      var variant := variants[m[StringKey(discriminator)].s];
      var r := StripMapping(StripMapping(m, common), variant);
      StripKeepsVariant(m, common, discriminator, variants);
      StripKeepsVariant(StripMapping(m, common), variant, discriminator, variants);
      forall k | k in r
        ensures k in m
        ensures FieldSchema2(common, variant, k).Some? ==> AbsentNode(r[k], FieldSchema2(common, variant, k).value)
      {
        StripVariantEntry(m, common, variant, k);
        if k.s in common.of {
          StripNodePassesAbsent(m[k], common.of[k.s]);
        } else if k.s in variant.of {
          StripNodePassesAbsent(m[k], variant.of[k.s]);
        }
      }
    case _ =>
  }

  lemma {:induction false} StripMappingPassesAbsent(m: map<Key, Value>, f: Fields, additional: AdditionalFields)
    requires WellFormedFields(f) && ValidMapping(m, f, additional)
    ensures AbsentMapping(StripMapping(m, f), f)
    decreases f
  {
    forall field | field in f.of && StringKey(field) in StripMapping(m, f)
      ensures AbsentNode(StripMapping(m, f)[StringKey(field)], f.of[field])
    {
      StripNodePassesAbsent(m[StringKey(field)], f.of[field]);
    }
  }

  lemma {:induction false} StripNodeIdempotent(v: Value, s: Schema)
    requires WellFormed(s)
    ensures StripNode(StripNode(v, s), s) == StripNode(v, s)
    decreases s
  {
    match (v, s)
    case (Sequence(items), SequenceOf(item)) =>
      forall i | 0 <= i < |items|
        ensures StripNode(StripNode(items[i], item), item) == StripNode(items[i], item)
      {
        StripNodeIdempotent(items[i], item);
      }
    case (Mapping(m), MappingOf(fields, required, additional)) =>
      StripMappingIdempotent(m, fields);
    case (Mapping(m), NamedMap(value)) =>
      forall k | k in m ensures StripNode(StripNode(m[k], value), value) == StripNode(m[k], value) {
        StripNodeIdempotent(m[k], value);
      }
    case (Mapping(m), Discriminated(discriminator, common, variants, required, variantRequired, additional)) =>
      if SelectVariant(m, discriminator, variants).Some? {
        var variant := variants[m[StringKey(discriminator)].s];
        var r := StripMapping(StripMapping(m, common), variant);
        StripKeepsVariant(m, common, discriminator, variants);
        StripKeepsVariant(StripMapping(m, common), variant, discriminator, variants);
        var again := StripMapping(StripMapping(r, common), variant);
        forall k ensures k in r <==> k in again
          ensures k in r ==> r[k] == again[k]
        {
          StripVariantEntry(m, common, variant, k);
          StripVariantEntry(r, common, variant, k);
          if k in r && k.StringKey? && k.s in common.of {
            StripNodeIdempotent(m[k], common.of[k.s]);
          } else if k in r && k.StringKey? && k.s in variant.of {
            StripNodeIdempotent(m[k], variant.of[k.s]);
          }
        }
        assert r == again;
      }
    case _ =>
  }

  lemma {:induction false} StripMappingIdempotent(m: map<Key, Value>, f: Fields)
    requires WellFormedFields(f)
    ensures StripMapping(StripMapping(m, f), f) == StripMapping(m, f)
    decreases f
  {
    var r := StripMapping(m, f);
    var again := StripMapping(r, f);
    forall k | k in r
      ensures k in again && again[k] == r[k]
    {
      if k.StringKey? && k.s in f.of {
        StripNodeIdempotent(m[k], f.of[k.s]);
      }
    }
    assert again.Keys == r.Keys;
  }

  // ---------------------------------------------------------------------------
  // Stripping by document path
  // ---------------------------------------------------------------------------

  datatype Step = Field(key: Key) | Index(at: nat)

  function Child(v: Value, step: Step): Option<Value> {
    match (v, step)
    case (Mapping(m), Field(k)) => if k in m then Some(m[k]) else None
    case (Sequence(items), Index(i)) => if i < |items| then Some(items[i]) else None
    case _ => None
  }

  function Lookup(v: Value, path: seq<Step>): Option<Value> {
    if path == [] then Some(v)
    else match Child(v, path[0])
         case None => None
         case Some(c) => Lookup(c, path[1..])
  }

  /** The schema that governs a child of a document node, if the policy knows it. */
  function ChildSchema(v: Value, s: Schema, step: Step): Option<Schema> {
    match (v, s, step)
    case (Sequence(items), SequenceOf(item), Index(i)) => Some(item)
    case (Mapping(m), MappingOf(fields, _, _), Field(k)) => FieldSchema(fields, k)
    case (Mapping(m), NamedMap(value), Field(k)) => Some(value)
    case (Mapping(m), Discriminated(discriminator, common, variants, _, _, _), Field(k)) =>
      (match SelectVariant(m, discriminator, variants)
       case None => None
       case Some(variant) => FieldSchema2(common, variant, k))
    case _ => None
  }

  /** Some field on `path` is marked by a schema satisfying `marker`. */
  ghost predicate Crosses(v: Value, s: Schema, path: seq<Step>, marker: Schema -> bool)
    decreases |path|
  {
    path != [] &&
    match (Child(v, path[0]), ChildSchema(v, s, path[0]))
    case (Some(c), Some(cs)) => marker(cs) || Crosses(c, cs, path[1..], marker)
    case _ => false
  }

  predicate Scalar(v: Value) {
    !v.Sequence? && !v.Mapping?
  }

  predicate SameKind(v: Value, w: Value) {
    (Scalar(v) ==> w == v) &&
    (v.Sequence? ==> w.Sequence? && |w.items| == |v.items|) &&
    (v.Mapping? ==> w.Mapping?)
  }

  lemma StripSameKind(v: Value, s: Schema)
    ensures SameKind(v, StripNode(v, s))
  {
  }

  /** One step down, stripping commutes with taking a child unless the child is managed. */
  lemma StripChild(v: Value, s: Schema, step: Step)
    requires WellFormed(s) && !Managed(s)
    ensures match (Child(v, step), ChildSchema(v, s, step))
            case (None, _) => Child(StripNode(v, s), step).None?
            case (Some(c), None) => Child(StripNode(v, s), step) == Some(c)
            case (Some(c), Some(cs)) =>
              WellFormed(cs) &&
              (if Managed(cs) then Child(StripNode(v, s), step).None?
               else Child(StripNode(v, s), step) == Some(StripNode(c, cs)))
  {
    match (v, s, step)
    case (Mapping(m), MappingOf(fields, required, additional), Field(k)) =>
      StripMappingDomain(m, fields, k);
    case (Mapping(m), Discriminated(discriminator, common, variants, _, _, _), Field(k)) =>
      if SelectVariant(m, discriminator, variants).Some? {
        StripVariantEntry(m, common, variants[m[StringKey(discriminator)].s], k);
      }
    case _ =>
  }

  /** Stripping removes exactly the paths that cross a managed field: everywhere else
      the path still exists, with the same scalar or the same kind of container. Keys the
      policy does not know are never crossed, so everything below them is untouched. */
  lemma {:induction false} StripRemovesExactlyManagedPaths(v: Value, s: Schema, path: seq<Step>)
    requires WellFormed(s) && !Managed(s)
    ensures var after := Lookup(StripNode(v, s), path);
            match Lookup(v, path)
            case None => after.None?
            case Some(x) =>
              if Crosses(v, s, path, Managed) then after.None?
              else after.Some? && SameKind(x, after.value)
    decreases |path|
  {
    StripSameKind(v, s);
    if path != [] {
      StripChild(v, s, path[0]);
      match (Child(v, path[0]), ChildSchema(v, s, path[0]))
      case (Some(c), Some(cs)) =>
        if !Managed(cs) {
          StripRemovesExactlyManagedPaths(c, cs, path[1..]);
        }
      case _ =>
    }
  }

  // ---------------------------------------------------------------------------
  // The privileged check by document path
  // ---------------------------------------------------------------------------

  ghost predicate ReachesDrop(v: Value, s: Schema) {
    exists path :: Lookup(v, path).Some? && Crosses(v, s, path, (x: Schema) => x.ManagedDrop?)
  }

  lemma ReachesDropThroughChild(v: Value, s: Schema, step: Step)
    requires Child(v, step).Some? && ChildSchema(v, s, step).Some?
    requires ChildSchema(v, s, step).value.ManagedDrop? ||
             ReachesDrop(Child(v, step).value, ChildSchema(v, s, step).value)
    ensures ReachesDrop(v, s)
  {
    var c, cs := Child(v, step).value, ChildSchema(v, s, step).value;
    var drop := (x: Schema) => x.ManagedDrop?;
    var rest := if cs.ManagedDrop? then [] else
      var p :| Lookup(c, p).Some? && Crosses(c, cs, p, drop); p;
    var path := [step] + rest;
    assert path[0] == step && path[1..] == rest;
    assert Lookup(v, path).Some? && Crosses(v, s, path, drop);
  }

  /** On a valid document the privileged check accepts exactly when no existing path
      crosses a managed-drop field, at any depth. */
  lemma {:induction false} AbsentIffNoDropReached(v: Value, s: Schema)
    requires WellFormed(s) && !Managed(s) && ValidNode(v, s)
    ensures AbsentNode(v, s) <==> !ReachesDrop(v, s)
    decreases s
  {
    if AbsentNode(v, s) {
      forall path | Lookup(v, path).Some? && Crosses(v, s, path, (x: Schema) => x.ManagedDrop?)
        ensures false
      {
        AbsentHasNoDropPath(v, s, path);
      }
    } else {
      var step := RejectedChild(v, s);
      var c, cs := Child(v, step).value, ChildSchema(v, s, step).value;
      if !cs.ManagedDrop? {
        AbsentIffNoDropReached(c, cs);
      }
      ReachesDropThroughChild(v, s, step);
    }
  }

  /** A rejection always comes from one governed child. */
  lemma RejectedChild(v: Value, s: Schema) returns (step: Step)
    requires WellFormed(s) && !Managed(s) && ValidNode(v, s) && !AbsentNode(v, s)
    ensures Child(v, step).Some? && ChildSchema(v, s, step).Some?
    ensures var c, cs := Child(v, step).value, ChildSchema(v, s, step).value;
            (s decreases to cs) && WellFormed(cs) && ValidNode(c, cs) && !cs.ManagedReplace? && !AbsentNode(c, cs)
  {
    match s
    case SequenceOf(item) =>
      var i :| 0 <= i < |v.items| && !AbsentNode(v.items[i], item);
      step := Index(i);
    case MappingOf(fields, required, additional) =>
      var field :| field in fields.of && StringKey(field) in v.entries &&
                   !(!fields.of[field].ManagedDrop? &&
                     (!fields.of[field].ManagedReplace? ==> AbsentNode(v.entries[StringKey(field)], fields.of[field])));
      step := Field(StringKey(field));
    case NamedMap(value) =>
      var k :| k in v.entries && !AbsentNode(v.entries[k], value);
      step := Field(k);
    case Discriminated(discriminator, common, variants, required, variantRequired, additional) =>
      var variant := variants[v.entries[StringKey(discriminator)].s];
      var k :| k in v.entries && FieldSchema2(common, variant, k).Some? &&
               !AbsentNode(v.entries[k], FieldSchema2(common, variant, k).value);
      step := Field(k);
  }

  lemma {:induction false} AbsentHasNoDropPath(v: Value, s: Schema, path: seq<Step>)
    requires AbsentNode(v, s) && !Managed(s)
    ensures !Crosses(v, s, path, (x: Schema) => x.ManagedDrop?)
    decreases |path|
  {
    if path != [] {
      match (Child(v, path[0]), ChildSchema(v, s, path[0]))
      case (Some(c), Some(cs)) =>
        if cs.ManagedReplace? {
          ReplaceHasNoDropPath(c, cs, path[1..]);
        } else {
          AbsentHasNoDropPath(c, cs, path[1..]);
        }
      case _ =>
    }
  }

  lemma ReplaceHasNoDropPath(v: Value, s: Schema, path: seq<Step>)
    requires s.ManagedReplace?
    ensures !Crosses(v, s, path, (x: Schema) => x.ManagedDrop?)
  {
  }
}
