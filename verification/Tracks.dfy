/**
 Catalog tracks and their identity: a name in a namespace that may be inherited from the catalog.
 */
module Tracks {
  type Raw = string

  /**
   fields are the fields other than namespace and name that are set to something; present are the names of the fields
   written out in the JSON the track was read from, empty values included.
   */
  datatype Track = Track(namespace: string, name: string, fields: map<string, Raw>, extra: map<string, Raw>, present: set<string>)

  datatype TrackRef = TrackRef(namespace: string, name: string, extra: map<string, Raw>)

  /** A clone names its parent; track holds the overrides. */
  datatype TrackClone = TrackClone(track: Track, parentName: string, parentNamespace: string)

  datatype TrackId = TrackId(namespace: string, name: string)

  const INHERITED := "\0catalog"

  function EffectiveNamespace(namespace: string, inherited: string): string {
    if namespace != "" then namespace else if inherited != "" then inherited else INHERITED
  }

  function Id(t: Track, inherited: string): TrackId {
    TrackId(EffectiveNamespace(t.namespace, inherited), t.name)
  }

  function RefId(r: TrackRef, inherited: string): TrackId {
    TrackId(EffectiveNamespace(r.namespace, inherited), r.name)
  }

  function ParentId(c: TrackClone, inherited: string): TrackId {
    TrackId(EffectiveNamespace(c.parentNamespace, inherited), c.parentName)
  }

  /** A track's identity survives a change of the inherited namespace exactly when it does not inherit, or inherits the same. */
  lemma IdSurvives(t: Track, before: string, after: string)
    ensures Id(t, before) == Id(t, after) <==> t.namespace != "" || EffectiveNamespace("", before) == EffectiveNamespace("", after)
  {
  }

  predicate HasField(t: Track, field: string) {
    field in t.present || field in t.fields
  }

  /** The parent with every field that the override declares, even as empty. */
  function Overridden(parent: Track, o: Track): Track {
    Track(if "namespace" in o.present || o.namespace != "" then o.namespace else parent.namespace,
          if "name" in o.present || o.name != "" then o.name else parent.name,
          map f | f in parent.fields.Keys + o.fields.Keys && (HasField(o, f) ==> f in o.fields) ::
            if HasField(o, f) then o.fields[f] else parent.fields[f],
          parent.extra + o.extra,
          parent.present + o.present)
  }

  /** Field by field, a cloned track has what its override declares and otherwise what its parent has. */
  lemma OverrideMeans(parent: Track, o: Track, f: string)
    ensures var t := Overridden(parent, o);
            if HasField(o, f) then (f in t.fields <==> f in o.fields) && (f in o.fields ==> t.fields[f] == o.fields[f])
            else (f in t.fields <==> f in parent.fields) && (f in parent.fields ==> t.fields[f] == parent.fields[f])
  {
  }

  predicate DeclaresNamespace(t: Track) {
    "namespace" in t.present || t.namespace != ""
  }

  predicate DeclaresName(t: Track) {
    "name" in t.present || t.name != ""
  }

  /** The identity is the override's where it declares one, even as empty; so is any extra field it has. */
  lemma OverriddenIdentity(parent: Track, o: Track, inherited: string)
    ensures var t := Overridden(parent, o);
            && Id(t, inherited) == TrackId(Id(if DeclaresNamespace(o) then o else parent, inherited).namespace,
                                           if DeclaresName(o) then o.name else parent.name)
            && (DeclaresNamespace(t) <==> DeclaresNamespace(o) || DeclaresNamespace(parent))
            && t.present == parent.present + o.present
            && forall f :: (f in t.extra <==> f in o.extra || f in parent.extra)
                           && (f in o.extra ==> t.extra[f] == o.extra[f])
                           && (f in parent.extra && f !in o.extra ==> t.extra[f] == parent.extra[f])
  {
  }

  /** A clone of a clone is the first parent with both overrides, the later one on top. */
  lemma CloneOfClone(parent: Track, o: Track, o': Track)
    ensures Overridden(Overridden(parent, o), o') == Overridden(parent, Overridden(o, o'))
  {
    CloneFields(parent, o, o');
    CloneExtra(parent.extra, o.extra, o'.extra);
    assert parent.present + o.present + o'.present == parent.present + (o.present + o'.present);
  }

  lemma CloneFields(parent: Track, o: Track, o': Track)
    ensures Overridden(Overridden(parent, o), o').fields == Overridden(parent, Overridden(o, o')).fields
  {
    var a, b := Overridden(Overridden(parent, o), o').fields, Overridden(parent, Overridden(o, o')).fields;
    forall f ensures (f in a <==> f in b) && (f in a ==> a[f] == b[f]) {
      OverrideMeans(parent, o, f);
      OverrideMeans(Overridden(parent, o), o', f);
      OverrideMeans(o, o', f);
      OverrideMeans(parent, Overridden(o, o'), f);
    }
  }

  lemma CloneExtra(a: map<string, Raw>, b: map<string, Raw>, c: map<string, Raw>)
    ensures a + b + c == a + (b + c)
  {
  }

  /** Cloning with no override but a new name gives the parent under that name. */
  lemma RenameOnly(parent: Track, name: string)
    requires name != "" && "name" !in parent.fields
    ensures Overridden(parent, Track("", name, map[], map[], {"name"})) ==
            parent.(name := name, present := parent.present + {"name"})
  {
  }
}
