/**
 * The object keys of the informer machinery the controller relies on: the
 * `namespace/name` key computed for a change notification, the variant that
 * also accepts the tombstone of a deleted object, and the split of a key back
 * into namespace and name.
 */
module Keys {
  import opened Wrappers

  /** The character between namespace and name in an object key. */
  const Separator: char := '/'

  /** Identity of a namespaced object. */
  datatype ObjectMeta = ObjectMeta(namespace: string, name: string)

  /**
   * What a change notification hands to an event handler: an object that
   * carries metadata, the tombstone an informer delivers when it missed the
   * final state of a deleted object (it holds the object's last known key),
   * or a value without object metadata.
   */
  datatype Payload = Object(meta: ObjectMeta) | Tombstone(key: string) | NoMeta

  datatype KeyError = ObjectHasNoMeta | UnexpectedKeyFormat(key: string)

  /** A name the store accepts as a namespace or an object name: it never contains the separator. */
  predicate ValidSegment(s: string) {
    Separator !in s
  }

  /** The queue key of an object: `namespace/name`, or the bare name when the namespace is empty. */
  function NamespaceKey(m: ObjectMeta): string {
    if |m.namespace| > 0 then m.namespace + [Separator] + m.name else m.name
  }

  /**
   * Key of an object with metadata; anything else (a tombstone included) has
   * no key. The key of an object splits back into its identity.
   */
  function MetaNamespaceKey(obj: Payload): (r: Result<string, KeyError>)
    ensures r.Ok? <==> obj.Object?
    ensures obj.Object? && ValidSegment(obj.meta.namespace) && ValidSegment(obj.meta.name) ==>
      SplitMetaNamespaceKey(r.value) == Ok(obj.meta)
  {
    match obj
    case Object(m) =>
      assert ValidSegment(m.namespace) && ValidSegment(m.name) ==> SplitMetaNamespaceKey(NamespaceKey(m)) == Ok(m) by {
        if ValidSegment(m.namespace) && ValidSegment(m.name) {
          KeyRoundTrip(m);
        }
      }
      Ok(NamespaceKey(m))
    case _ => Err(ObjectHasNoMeta)
  }

  /** Like MetaNamespaceKey, but a tombstone yields the key it carries. */
  function DeletionHandlingKey(obj: Payload): (r: Result<string, KeyError>)
    ensures !obj.Tombstone? ==> r == MetaNamespaceKey(obj)
    ensures obj.Tombstone? ==> r == Ok(obj.key)
    ensures r.Err? <==> obj.NoMeta?
  {
    match obj
    case Tombstone(k) => Ok(k)
    case _ => MetaNamespaceKey(obj)
  }

  /** The parts joined back together, the separator between neighbours. */
  function Join(parts: seq<string>, sep: char): string
    decreases |parts|
  {
    if |parts| == 0 then []
    else if |parts| == 1 then parts[0]
    else parts[0] + [sep] + Join(parts[1..], sep)
  }

  /**
   * Splitting a string at every occurrence of a one-character separator.
   * The two properties in the contract determine the parts uniquely.
   */
  function Split(s: string, sep: char): (parts: seq<string>)
    ensures |parts| >= 1
    ensures forall i :: 0 <= i < |parts| ==> sep !in parts[i]
    ensures Join(parts, sep) == s
    decreases |s|
  {
    if s == [] then [[]]
    else if s[0] == sep then [[]] + Split(s[1..], sep)
    else
      var p := Split(s[1..], sep);
      JoinConsFirst(p, s[0], sep);
      [[s[0]] + p[0]] + p[1..]
  }

  /** Prefixing the first part with a character prefixes the joined string. */
  lemma JoinConsFirst(p: seq<string>, c: char, sep: char)
    requires |p| >= 1
    ensures Join([[c] + p[0]] + p[1..], sep) == [c] + Join(p, sep)
  {
  }

  /** Splitting a key into namespace and name: one part is a bare name, two are namespace and name. */
  function SplitMetaNamespaceKey(key: string): (r: Result<ObjectMeta, KeyError>)
    ensures r.Ok? ==> ValidSegment(r.value.namespace) && ValidSegment(r.value.name)
    ensures Separator !in key ==> r == Ok(ObjectMeta("", key))
    ensures r.Ok? && Separator in key ==> key == r.value.namespace + [Separator] + r.value.name
    ensures r.Err? ==> r.error == UnexpectedKeyFormat(key)
  {
    var parts := Split(key, Separator);
    assert Separator !in key ==> parts == [key] by {
      if Separator !in key {
        SplitWithoutSeparator(key, Separator);
      }
    }
    if |parts| == 1 then
      Ok(ObjectMeta("", parts[0]))
    else if |parts| == 2 then
      assert Join(parts[1..], Separator) == parts[1];
      Ok(ObjectMeta(parts[0], parts[1]))
    else
      Err(UnexpectedKeyFormat(key))
  }

  /** A string without the separator is one part. */
  lemma SplitWithoutSeparator(s: string, sep: char)
    requires sep !in s
    ensures Split(s, sep) == [s]
  {
  }

  /** The first separator ends the first part; the rest is split on its own. */
  lemma {:induction false} SplitAtSeparator(a: string, b: string, sep: char)
    requires sep !in a
    ensures Split(a + [sep] + b, sep) == [a] + Split(b, sep)
    decreases |a|
  {
    var s := a + [sep] + b;
    if a == [] {
      assert s[1..] == b;
    } else {
      assert s[1..] == a[1..] + [sep] + b;
      SplitAtSeparator(a[1..], b, sep);
      assert [a[0]] + a[1..] == a;
    }
  }

  /** A key with exactly one separator is accepted as `namespace/name`, whatever the namespace, the empty one included. */
  lemma SplitOneSeparator(namespace: string, name: string)
    requires ValidSegment(namespace) && ValidSegment(name)
    ensures SplitMetaNamespaceKey(namespace + [Separator] + name) == Ok(ObjectMeta(namespace, name))
  {
    SplitAtSeparator(namespace, name, Separator);
    SplitWithoutSeparator(name, Separator);
  }

  /** Every key built from valid segments splits back into the object's identity. */
  lemma KeyRoundTrip(m: ObjectMeta)
    requires ValidSegment(m.namespace) && ValidSegment(m.name)
    ensures SplitMetaNamespaceKey(NamespaceKey(m)) == Ok(m)
  {
    if |m.namespace| > 0 {
      SplitOneSeparator(m.namespace, m.name);
    }
  }
}
