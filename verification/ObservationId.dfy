/**
 * The name from which an observation's event id is derived (crates/core/src/source_session_event.rs).
 * The id is a hash of the name, taken here as any injective function.
 */
module ObservationId {
  import opened Base
  import opened ColonJoin

  /** The fields of an indexed session row that the id depends on. */
  datatype Row = Row(sourceId: string, externalId: string, fingerprint: Option<string>, parser: Option<string>)

  const PREFIX := "brick:source-session-observed-v2:"

  function Fields(source: string, external: string, fingerprint: string, parser: string): string {
    Joined(source, Joined(external, Joined(fingerprint, parser)))
  }

  function Name(r: Row): string {
    PREFIX + Fields(r.sourceId, r.externalId, OrEmpty(r.fingerprint), OrEmpty(r.parser))
  }

  function EventIdOf(hash: string -> nat, r: Row): nat {
    hash(Name(r))
  }

  /** An absent fingerprint or parser version and an empty one are the same to the name. */
  predicate SameFields(a: Row, b: Row) {
    && a.sourceId == b.sourceId && a.externalId == b.externalId
    && OrEmpty(a.fingerprint) == OrEmpty(b.fingerprint) && OrEmpty(a.parser) == OrEmpty(b.parser)
  }

  /** The fingerprint may hold colons, as the indexer's always do; the other three fields may not. */
  predicate Separable(r: Row) {
    ':' !in r.sourceId && ':' !in r.externalId && ':' !in OrEmpty(r.parser)
  }

  /** Two separable rows have the same name exactly when they have the same fields. */
  lemma NameInjective(a: Row, b: Row)
    requires Separable(a) && Separable(b)
    ensures Name(a) == Name(b) <==> SameFields(a, b)
  {
    if Name(a) == Name(b) {
      BodyOf(a);
      BodyOf(b);
      var fa, fb := OrEmpty(a.fingerprint), OrEmpty(b.fingerprint);
      var pa, pb := OrEmpty(a.parser), OrEmpty(b.parser);
      SplitAtFirst(a.sourceId, Joined(a.externalId, Joined(fa, pa)), b.sourceId, Joined(b.externalId, Joined(fb, pb)));
      SplitAtFirst(a.externalId, Joined(fa, pa), b.externalId, Joined(fb, pb));
      SplitAtLast(fa, pa, fb, pb);
    }
  }

  lemma BodyOf(r: Row)
    ensures Name(r)[|PREFIX|..] == Fields(r.sourceId, r.externalId, OrEmpty(r.fingerprint), OrEmpty(r.parser))
  {
  }

  // ---- when a colon makes names collide ----

  lemma ColonsOfFields(r: Row)
    ensures Colons(Fields(r.sourceId, r.externalId, OrEmpty(r.fingerprint), OrEmpty(r.parser)))
         == Colons(r.sourceId) + Colons(r.externalId) + Colons(OrEmpty(r.fingerprint)) + Colons(OrEmpty(r.parser)) + 3
  {
    ColonsJoined(OrEmpty(r.fingerprint), OrEmpty(r.parser));
    ColonsJoined(r.externalId, Joined(OrEmpty(r.fingerprint), OrEmpty(r.parser)));
    ColonsJoined(r.sourceId, Joined(r.externalId, Joined(OrEmpty(r.fingerprint), OrEmpty(r.parser))));
  }

  predicate ColonFree(r: Row) {
    ':' !in r.sourceId && ':' !in r.externalId && ':' !in OrEmpty(r.fingerprint) && ':' !in OrEmpty(r.parser)
  }

  /** A row with a colon in some field shares its name with a row of other fields. */
  lemma ColonCollides(r: Row) returns (other: Row)
    requires !ColonFree(r)
    ensures Name(other) == Name(r) && !SameFields(other, r)
  {
    var f, p := OrEmpty(r.fingerprint), OrEmpty(r.parser);
    if ':' in r.sourceId || ':' in r.externalId {
      var source, external := JoinedCollides(r.sourceId, r.externalId);
      other := r.(sourceId := source, externalId := external);
      JoinedTwice(source, external, Joined(f, p));
      JoinedTwice(r.sourceId, r.externalId, Joined(f, p));
    } else {
      var f', p' := JoinedCollides(f, p);
      other := r.(fingerprint := Some(f'), parser := Some(p'));
    }
  }

  /** No row of other fields has a row's name exactly when none of its fields has a colon. */
  lemma NameUniqueIff(r: Row)
    ensures (forall other | Name(other) == Name(r) :: SameFields(other, r)) <==> ColonFree(r)
  {
    if ColonFree(r) {
      forall other | Name(other) == Name(r)
        ensures SameFields(other, r)
      {
        SameNameColonFree(r, other);
        NameInjective(other, r);
      }
    } else {
      var other := ColonCollides(r);
    }
  }

  lemma SameNameColonFree(r: Row, other: Row)
    requires ColonFree(r) && Name(other) == Name(r)
    ensures ColonFree(other)
  {
    BodyOf(r);
    BodyOf(other);
    ColonsOfFields(r);
    ColonsOfFields(other);
    ColonsNone(r.sourceId);
    ColonsNone(r.externalId);
    ColonsNone(OrEmpty(r.fingerprint));
    ColonsNone(OrEmpty(r.parser));
    ColonsNone(other.sourceId);
    ColonsNone(other.externalId);
    ColonsNone(OrEmpty(other.fingerprint));
    ColonsNone(OrEmpty(other.parser));
  }

  // ---- the indexer's rows ----

  /** The fingerprint the indexer writes: file time, size and parser version. */
  function FingerprintText(mtime: string, size: string, parser: string): string {
    Joined(mtime, Joined(size, parser))
  }

  /** What an indexer observes: everything its event id can depend on. */
  datatype Sighting = Sighting(sourceId: string, externalId: string, mtime: string, size: string, parser: string)

  function RowOf(s: Sighting): Row {
    Row(s.sourceId, s.externalId, Some(FingerprintText(s.mtime, s.size, s.parser)), Some(s.parser))
  }

  /** A decimal size never has a colon; a timestamp does. */
  predicate PlainSighting(s: Sighting) {
    ':' !in s.sourceId && ':' !in s.externalId && ':' !in s.size && ':' !in s.parser
  }

  lemma SightingsDistinct(hash: string -> nat, a: Sighting, b: Sighting)
    requires PlainSighting(a) && PlainSighting(b)
    requires forall x, y :: hash(x) == hash(y) ==> x == y
    ensures EventIdOf(hash, RowOf(a)) == EventIdOf(hash, RowOf(b)) <==> a == b
  {
    if EventIdOf(hash, RowOf(a)) == EventIdOf(hash, RowOf(b)) {
      NameInjective(RowOf(a), RowOf(b));
      JoinedTwice(a.mtime, a.size, a.parser);
      JoinedTwice(b.mtime, b.size, b.parser);
      SplitAtLast(Joined(a.mtime, a.size), a.parser, Joined(b.mtime, b.size), b.parser);
      SplitAtLast(a.mtime, a.size, b.mtime, b.size);
    }
  }

  /** The event ids of a set of sightings: one for each. */
  lemma {:induction false} OneEventPerSighting(hash: string -> nat, sightings: set<Sighting>)
    requires forall s | s in sightings :: PlainSighting(s)
    requires forall x, y :: hash(x) == hash(y) ==> x == y
    ensures |set s | s in sightings :: EventIdOf(hash, RowOf(s))| == |sightings|
  {
    var ids := set s | s in sightings :: EventIdOf(hash, RowOf(s));
    if sightings == {} {
      assert ids == {};
    } else {
      var s :| s in sightings;
      var rest := sightings - {s};
      var restIds := set r | r in rest :: EventIdOf(hash, RowOf(r));
      OneEventPerSighting(hash, rest);
      forall r | r in rest
        ensures EventIdOf(hash, RowOf(r)) != EventIdOf(hash, RowOf(s))
      {
        SightingsDistinct(hash, r, s);
      }
      assert ids == restIds + {EventIdOf(hash, RowOf(s))};
    }
  }

  /** Seen at one time, with one size and parser version. */
  predicate SameVersion(a: Sighting, b: Sighting) {
    a.mtime == b.mtime && a.size == b.size && a.parser == b.parser
  }

  /**
   * A session's observation shares its name with that of another session of the same time, size and
   * parser version exactly when its source or its external id has a colon.
   */
  lemma SessionsCollideIff(s: Sighting)
    ensures (exists other :: SameVersion(other, s) && other != s && Name(RowOf(other)) == Name(RowOf(s)))
       <==> ':' in s.sourceId || ':' in s.externalId
  {
    JoinedUniqueIff(s.sourceId, s.externalId);
    if ':' in s.sourceId || ':' in s.externalId {
      var source, external := JoinedCollides(s.sourceId, s.externalId);
      var other := s.(sourceId := source, externalId := external);
      SameVersionNames(other, s);
      assert SameVersion(other, s);
    } else {
      forall other | SameVersion(other, s) && Name(RowOf(other)) == Name(RowOf(s))
        ensures other == s
      {
        SameVersionNames(other, s);
      }
    }
  }

  lemma SameVersionNames(a: Sighting, b: Sighting)
    requires SameVersion(a, b)
    ensures Name(RowOf(a)) == Name(RowOf(b)) <==> Joined(a.sourceId, a.externalId) == Joined(b.sourceId, b.externalId)
  {
    var rest := Joined(FingerprintText(a.mtime, a.size, a.parser), a.parser);
    BodyOf(RowOf(a));
    BodyOf(RowOf(b));
    JoinedTwice(a.sourceId, a.externalId, rest);
    JoinedTwice(b.sourceId, b.externalId, rest);
    JoinedCancel(Joined(a.sourceId, a.externalId), Joined(b.sourceId, b.externalId), rest);
  }
}
