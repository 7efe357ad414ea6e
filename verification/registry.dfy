/** The `files` table: slug (primary key) to media descriptor. */
module Registry {
  import opened Wrappers

  /** The three media kinds `/add` accepts and the callback can deliver. */
  datatype MediaKind = Photo | Video | Document

  /** The `file_type` text stored for a kind. */
  function KindName(k: MediaKind): string {
    match k
    case Photo => "photo"
    case Video => "video"
    case Document => "document"
  }

  /** Reads a `file_type` column back as a kind; case-sensitive, no trimming. */
  function ParseKind(t: string): (r: Option<MediaKind>)
    ensures r.Some? <==> (t == "photo" || t == "video" || t == "document")
    ensures r.Some? ==> KindName(r.value) == t
  {
    if t == "photo" then Some(Photo)
    else if t == "video" then Some(Video)
    else if t == "document" then Some(Document)
    else None
  }

  /** Every kind's name reads back as that kind, and distinct kinds have distinct names. */
  lemma KindNameRoundTrip(k: MediaKind)
    ensures ParseKind(KindName(k)) == Some(k)
  {
  }

  /** One row of the table without its key. `fileType` is the raw TEXT column. */
  datatype Descriptor = Descriptor(fileId: string, fileType: string, caption: Option<string>)

  /** The whole table, keyed by slug; a map has at most one row per slug. */
  type Store = map<string, Descriptor>

  /** How the database behaves during one handler run. */
  datatype Fault = Healthy | ReadFails | WriteFails

  /** Why an INSERT is rejected: the PRIMARY KEY already holds the slug. */
  datatype InsertError = DuplicateKey

  /** `SELECT * FROM files WHERE slug = ?`: the row for `slug`, if any. */
  function Lookup(s: Store, slug: string): (r: Option<Descriptor>)
    ensures r.Some? <==> slug in s
    ensures r.Some? ==> r.value == s[slug]
  {
    if slug in s then Some(s[slug]) else None
  }

  /** A lookup sees only its own slug's row: writing any other slug does not change
      what it returns. */
  lemma LookupIgnoresOtherRows(s: Store, slug: string, k: string, d: Descriptor)
    requires k != slug
    ensures Lookup(s[k := d], slug) == Lookup(s, slug)
  {
  }

  /** The same query when the bound parameter may be `undefined`, which binds as NULL
      and so never equals any stored slug. */
  function LookupKey(s: Store, key: Option<string>): (r: Option<Descriptor>)
    ensures r.Some? <==> key.Some? && key.value in s
    ensures r.Some? ==> r.value == s[key.value]
  {
    match key
    case None => None
    case Some(k) => Lookup(s, k)
  }

  /** `INSERT INTO files ...` against the PRIMARY KEY constraint: rejected without
      change when the slug is taken, otherwise exactly one new row. */
  function Insert(s: Store, slug: string, d: Descriptor): (r: Result<Store, InsertError>)
    ensures r.Failure? <==> slug in s
    ensures r.Success? ==> r.value.Keys == s.Keys + {slug}
    ensures r.Success? ==> |r.value| == |s| + 1
    ensures r.Success? ==> Lookup(r.value, slug) == Some(d)
    ensures r.Success? ==> forall k :: k != slug ==> Lookup(r.value, k) == Lookup(s, k)
  {
    if slug in s then Failure(DuplicateKey) else Success(s[slug := d])
  }

  /** `SELECT COUNT(*) FROM files`. */
  function Count(s: Store): (r: nat)
    ensures r == |s.Keys|
    ensures r == 0 <==> s == map[]
  {
    |s|
  }

  /** `s` is contained in `s'`: every row of `s` is in `s'`, unchanged. */
  ghost predicate Extends(s: Store, s': Store) {
    forall k :: k in s ==> k in s' && s'[k] == s[k]
  }

  /** A table extended by another has no more rows than it. */
  lemma ExtendsCount(s: Store, s': Store)
    requires Extends(s, s')
    ensures Count(s) <= Count(s')
  {
    assert s.Keys <= s'.Keys;
    SubsetCard(s.Keys, s'.Keys);
  }

  lemma SubsetCard<T>(a: set<T>, b: set<T>)
    requires a <= b
    ensures |a| <= |b|
  {
    assert b == a + (b - a);
  }

  /** Every stored `file_type` is one of the three kinds. */
  ghost predicate ValidKinds(s: Store) {
    forall k :: k in s ==> ParseKind(s[k].fileType).Some?
  }
}
