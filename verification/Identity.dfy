/** Records up to avahi_record_equal_no_ttl: what tables, caches and schedulers identify. */
module Identity {
  import opened Bytes
  import opened Names
  import opened Records
  import opened NameRelations

  /** A record that can be compared. */
  type Rec = r: Record | Comparable(r) witness Record(Key([], CLASS_IN, TYPE_A), 1, Address([0, 0, 0, 0]))

  datatype KeyClass = KeyClass(labels: seq<Text>, clazz: Uint16, kind: Uint16)

  datatype DataClass =
    | TargetClass(labels: seq<Text>)
    | ServiceClass(priority: Uint16, weight: Uint16, port: Uint16, labels: seq<Text>)
    | Exact(data: RData)

  datatype Ident = Ident(key: KeyClass, data: DataClass)

  function ClassOf(k: Key): KeyClass
    requires IsName(k.name)
  {
    KeyClass(FoldedAll(NameLabels(k.name).value), k.clazz, k.kind)
  }

  function DataClassOf(d: RData): DataClass
    requires d.Target? || d.Service? ==> IsName(d.name)
  {
    match d
    case Target(n) => TargetClass(FoldedAll(NameLabels(n).value))
    case Service(p, w, o, n) => ServiceClass(p, w, o, FoldedAll(NameLabels(n).value))
    case _ => Exact(d)
  }

  function Id(r: Rec): Ident {
    Ident(ClassOf(r.key), DataClassOf(r.data))
  }

  /** Two keys have the same class exactly when avahi_key_equal says so. */
  lemma SameKeySameClass(a: Key, b: Key)
    requires IsName(a.name) && IsName(b.name)
    ensures ClassOf(a) == ClassOf(b) <==> SameKey(a, b)
  {
    hide NameLabels, FoldedAll;
  }

  /** Two records have the same identity exactly when avahi_record_equal_no_ttl says so. */
  lemma SameRecordSameId(a: Rec, b: Rec)
    ensures Id(a) == Id(b) <==> SameRecord(a, b)
  {
    hide NameLabels, FoldedAll, Typed;
  }
}
