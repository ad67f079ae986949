/**
 The content-addressed attachment store: payloads kept under their digest, references written into text, and a
 collector that deletes what no persisted text refers to.

 The digest function is a parameter `h` of everything that hashes, and is only known to yield 64 hex digits.  No
 such function tells all payloads apart; where it matters, a result asks that none of the payloads actually stored
 collides with the one in question.
 */
module Attachments {
  import opened Common

  type Bytes = seq<bv8>
  /** The directory and the file name below the store's `sha256` directory. */
  type ObjectPath = (string, string)
  type Files = map<ObjectPath, Bytes>

  const DIGEST_PREFIX: string := "sha256:"
  const HEX_LEN: nat := 64
  const DIGEST_LEN: nat := 71

  datatype AttachmentRef = AttachmentRef(digest: string, mime: string, size: nat)

  datatype IoError = InvalidInput | NotFound | WriteFailed

  predicate IsHexDigit(c: char) {
    '0' <= c <= '9' || 'a' <= c <= 'f' || 'A' <= c <= 'F'
  }

  predicate AllHex(s: string) {
    forall i :: 0 <= i < |s| ==> IsHexDigit(s[i])
  }

  // ---------------------------------------------------------------- storing and opening

  function PathOf(hex: string): ObjectPath
    requires |hex| == HEX_LEN
  {
    (hex[..2], hex[2..])
  }

  /** The hex part of a well-formed digest; anything else is refused, so no reference leads out of the store. */
  function ValidateDigest(digest: string): Result<string, IoError> {
    if DIGEST_PREFIX <= digest && |digest| == DIGEST_LEN && AllHex(digest[|DIGEST_PREFIX|..])
    then Ok(digest[|DIGEST_PREFIX|..])
    else Err(InvalidInput)
  }

  function Open(files: Files, aref: AttachmentRef): Result<Bytes, IoError> {
    match ValidateDigest(aref.digest)
    case Err(e) => Err(e)
    case Ok(hex) => if PathOf(hex) in files then Ok(files[PathOf(hex)]) else Err(NotFound)
  }

  lemma HexDigits(c: char)
    ensures IsHexDigit(c) <==> c in "0123456789abcdefABCDEF"
  {
    var d := "0123456789abcdefABCDEF";
    if IsHexDigit(c) {
      var i := if c <= '9' then c as int - '0' as int
               else if c >= 'a' then 10 + (c as int - 'a' as int) else 16 + (c as int - 'A' as int);
      assert d[i] == c;
    }
  }

  /** Exactly the texts `sha256:` followed by 64 hex digits are digests; every other reference is refused unread. */
  lemma ValidDigestIff(digest: string, files: Files, mime: string, size: nat)
    ensures ValidateDigest(digest).Ok? <==>
              |digest| == 71 && digest[..7] == "sha256:" && forall i :: 7 <= i < 71 ==> digest[i] in "0123456789abcdefABCDEF"
    ensures ValidateDigest(digest).Ok? ==> digest == "sha256:" + ValidateDigest(digest).value
    ensures ValidateDigest(digest).Err? ==> Open(files, AttachmentRef(digest, mime, size)) == Err(InvalidInput)
  {
    forall c: char ensures IsHexDigit(c) <==> c in "0123456789abcdefABCDEF" {
      HexDigits(c);
    }
    if |digest| == 71 {
      assert forall i :: 7 <= i < 71 ==> digest[7..][i - 7] == digest[i];
      assert digest == digest[..7] + digest[7..];
    }
  }

  ghost predicate IsDigestFunction(h: Bytes -> string) {
    forall b :: |h(b)| == HEX_LEN && AllHex(h(b))
  }

  /** None of the payloads `others` collides with `b`. */
  ghost predicate TellsApart(h: Bytes -> string, b: Bytes, others: set<Bytes>) {
    forall c :: c in others && h(c) == h(b) ==> c == b
  }

  /** The object of `b` is there, and is `b`. */
  ghost predicate Holds(h: Bytes -> string, files: Files, b: Bytes)
    requires |h(b)| == HEX_LEN
  {
    PathOf(h(b)) in files && files[PathOf(h(b))] == b
  }

  function RefTo(h: Bytes -> string, b: Bytes, mime: string): AttachmentRef {
    AttachmentRef(DIGEST_PREFIX + h(b), mime, |b|)
  }

  /** Storing writes only when no object of that name exists. */
  function Stored(h: Bytes -> string, files: Files, b: Bytes): Files
    requires |h(b)| == HEX_LEN
  {
    if PathOf(h(b)) in files then files else files[PathOf(h(b)) := b]
  }

  predicate IsObjectName(p: ObjectPath) {
    |p.0| == 2 && |p.1| == HEX_LEN - 2 && AllHex(p.0) && AllHex(p.1)
  }

  /** Every object is named by the digest of its content. */
  ghost predicate Sound(h: Bytes -> string, files: Files) {
    forall p :: p in files && IsObjectName(p) ==> h(files[p]) == p.0 + p.1
  }

  lemma PathOfParts(hex: string)
    requires |hex| == HEX_LEN && AllHex(hex)
    ensures IsObjectName(PathOf(hex)) && PathOf(hex).0 + PathOf(hex).1 == hex
    ensures ValidateDigest(DIGEST_PREFIX + hex) == Ok(hex)
  {
    var d := DIGEST_PREFIX + hex;
    assert d[|DIGEST_PREFIX|..] == hex;
  }

  lemma StoringIsSound(h: Bytes -> string, files: Files, b: Bytes)
    requires IsDigestFunction(h) && Sound(h, files)
    ensures Sound(h, Stored(h, files, b)) && PathOf(h(b)) in Stored(h, files, b)
    ensures forall p :: p in files ==> p in Stored(h, files, b) && Stored(h, files, b)[p] == files[p]
  {
    PathOfParts(h(b));
  }

  /** A reference to `b` opens to `b` exactly when its object is there and is `b`. */
  lemma OpensIffHeld(h: Bytes -> string, files: Files, b: Bytes, mime: string)
    requires IsDigestFunction(h)
    ensures Open(files, RefTo(h, b, mime)) == Ok(b) <==> Holds(h, files, b)
  {
    PathOfParts(h(b));
  }

  /** In a sound store an object present under the digest of `b` is `b`, unless a stored payload collides with it. */
  lemma PresentIsReadable(h: Bytes -> string, files: Files, b: Bytes, mime: string)
    requires IsDigestFunction(h) && Sound(h, files) && PathOf(h(b)) in files && TellsApart(h, b, files.Values)
    ensures Holds(h, files, b) && Open(files, RefTo(h, b, mime)) == Ok(b)
  {
    PathOfParts(h(b));
    OpensIffHeld(h, files, b, mime);
  }

  /** What was stored is what is opened, also when the object was there before, unless that was another payload's. */
  lemma StoreThenOpen(h: Bytes -> string, files: Files, b: Bytes, mime: string)
    requires IsDigestFunction(h)
    ensures Open(Stored(h, files, b), RefTo(h, b, mime)) == Ok(b)
            <==> (PathOf(h(b)) in files ==> files[PathOf(h(b))] == b)
    ensures Sound(h, files) && TellsApart(h, b, files.Values) ==>
              Open(Stored(h, files, b), RefTo(h, b, mime)) == Ok(b)
  {
    OpensIffHeld(h, Stored(h, files, b), b, mime);
    if PathOf(h(b)) in files && Sound(h, files) && TellsApart(h, b, files.Values) {
      PresentIsReadable(h, files, b, mime);
    }
  }

  /** What a collision does: the second payload is taken for the first. */
  lemma CollisionOpensTheOther(h: Bytes -> string, b: Bytes, c: Bytes, mime: string)
    requires IsDigestFunction(h) && h(b) == h(c)
    ensures Open(Stored(h, Stored(h, map[], c), b), RefTo(h, b, mime)) == Ok(c)
  {
    StoreThenOpen(h, map[], c, mime);
  }

  // ---------------------------------------------------------------- references in text

  const MARKER_START: string := "{\"type\":\"image_ref\",\"digest\":\""

  /** The one-line marker a tool puts into its output. */
  function RenderRefLine(aref: AttachmentRef): string {
    MARKER_START + aref.digest + "\",\"mime\":\"" + aref.mime + "\",\"size\":" + Decimal(aref.size) + "}"
  }

  predicate DigestAt(text: string, i: nat) {
    OccursAt(text, DIGEST_PREFIX, i) && i + DIGEST_LEN <= |text| && AllHex(text[i + |DIGEST_PREFIX|..i + DIGEST_LEN])
  }

  /** The digests written anywhere in a text. */
  function Digests(text: string): set<string> {
    set i | 0 <= i < |text| && DigestAt(text, i) && i + DIGEST_LEN <= |text| :: text[i..i + DIGEST_LEN]
  }

  function Scan(texts: seq<string>): set<string> {
    if texts == [] then {} else Digests(texts[0]) + Scan(texts[1..])
  }

  /** A well-formed digest is found wherever it stands. */
  lemma DigestIsFound(before: string, digest: string, after: string)
    requires ValidateDigest(digest).Ok?
    ensures digest in Digests(before + digest + after)
  {
    var text, i := before + digest + after, |before|;
    assert text[i..i + DIGEST_LEN] == digest;
    assert text[i..i + |DIGEST_PREFIX|] == DIGEST_PREFIX;
    assert text[i + |DIGEST_PREFIX|..i + DIGEST_LEN] == digest[|DIGEST_PREFIX|..];
    assert DigestAt(text, i);
  }

  /** In particular the digest of a rendered marker line is found, whatever surrounds the line. */
  lemma RenderedDigestIsFound(before: string, aref: AttachmentRef, after: string)
    requires ValidateDigest(aref.digest).Ok?
    ensures aref.digest in Digests(before + RenderRefLine(aref) + after)
  {
    var rest := "\",\"mime\":\"" + aref.mime + "\",\"size\":" + Decimal(aref.size) + "}";
    assert RenderRefLine(aref) == MARKER_START + aref.digest + rest;
    assert before + RenderRefLine(aref) + after == (before + MARKER_START) + aref.digest + (rest + after);
    DigestIsFound(before + MARKER_START, aref.digest, rest + after);
  }

  /** The digests of a text are exactly the well-formed digests that stand somewhere in it. */
  lemma DigestsExact(text: string, d: string)
    ensures d in Digests(text) <==>
              ValidateDigest(d).Ok? && exists before: string, after: string :: text == before + d + after
  {
    if d in Digests(text) {
      var i :| 0 <= i < |text| && DigestAt(text, i) && text[i..i + DIGEST_LEN] == d;
      assert d[..7] == text[i..i + 7] && d[7..] == text[i + 7..i + DIGEST_LEN];
      assert text == text[..i] + d + text[i + DIGEST_LEN..];
    }
    if ValidateDigest(d).Ok? {
      if before: string, after: string :| text == before + d + after {
        DigestIsFound(before, d, after);
      }
    }
  }

  lemma {:induction false} DecimalHasNoColon(n: nat)
    ensures forall i :: 0 <= i < |Decimal(n)| ==> '0' <= Decimal(n)[i] <= '9'
  {
    var d := "0123456789";
    assert forall k :: 0 <= k < 10 ==> '0' <= d[k] <= '9';
    if n >= 10 {
      DecimalHasNoColon(n / 10);
    }
  }

  /** Two texts that agree, each ending behind its last colon in digits and a brace, agree in both parts. */
  lemma SplitAtLastColon(a: string, x: string, b: string, y: string)
    requires a + ":" + x == b + ":" + y
    requires forall i :: 0 <= i < |x| ==> x[i] != ':'
    requires forall i :: 0 <= i < |y| ==> y[i] != ':'
    ensures a == b && x == y
  {
    var t := a + ":" + x;
    assert t[|a|] == ':' && (b + ":" + y)[|b|] == ':';
    assert forall i :: |a| < i < |t| ==> t[i] == x[i - |a| - 1];
    assert forall i :: |b| < i < |t| ==> (b + ":" + y)[i] == y[i - |b| - 1];
    assert |a| == |b|;
    assert a == t[..|a|] && b == (b + ":" + y)[..|b|];
    assert x == t[|a| + 1..] && y == (b + ":" + y)[|b| + 1..];
  }

  /** A marker line says which attachment it stands for: digest, type and size can be read back from it. */
  lemma RefLineDetermines(a: AttachmentRef, b: AttachmentRef)
    requires ValidateDigest(a.digest).Ok? && ValidateDigest(b.digest).Ok?
    requires RenderRefLine(a) == RenderRefLine(b)
    ensures a == b
  {
    var ta, tb := Decimal(a.size) + "}", Decimal(b.size) + "}";
    var ha := MARKER_START + a.digest + "\",\"mime\":\"" + a.mime + "\",\"size\"";
    var hb := MARKER_START + b.digest + "\",\"mime\":\"" + b.mime + "\",\"size\"";
    assert RenderRefLine(a) == ha + ":" + ta && RenderRefLine(b) == hb + ":" + tb;
    DecimalHasNoColon(a.size);
    DecimalHasNoColon(b.size);
    SplitAtLastColon(ha, ta, hb, tb);
    assert Decimal(a.size) == ta[..|ta| - 1] && Decimal(b.size) == tb[..|tb| - 1];
    DecimalInjective(a.size, b.size);
    HeadDetermines(a, b, ha, hb);
  }

  /** It is told apart by how it begins, and stays one line unless its parts break it. */
  lemma RefLineIsOneMarker(a: AttachmentRef)
    ensures "{\"type\":\"image_ref\"" <= RenderRefLine(a)
    ensures '\n' !in a.digest && '\n' !in a.mime ==> '\n' !in RenderRefLine(a)
  {
    DecimalHasNoColon(a.size);
    assert '\n' !in MARKER_START && '\n' !in "\",\"mime\":\"" && '\n' !in "\",\"size\":";
  }

  lemma HeadDetermines(a: AttachmentRef, b: AttachmentRef, ha: string, hb: string)
    requires |a.digest| == |b.digest| && ha == hb
    requires ha == MARKER_START + a.digest + "\",\"mime\":\"" + a.mime + "\",\"size\""
    requires hb == MARKER_START + b.digest + "\",\"mime\":\"" + b.mime + "\",\"size\""
    ensures a.digest == b.digest && a.mime == b.mime
  {
    var s, e := |MARKER_START|, |MARKER_START| + |a.digest|;
    assert ha[s..e] == a.digest && hb[s..e] == b.digest;
    var m, t := e + |"\",\"mime\":\""|, |"\",\"size\""|;
    assert ha[m..|ha| - t] == a.mime && hb[m..|hb| - t] == b.mime;
  }

  lemma {:induction false} ScanMembers(texts: seq<string>, d: string)
    ensures d in Scan(texts) <==> exists i :: 0 <= i < |texts| && d in Digests(texts[i])
  {
    if texts != [] {
      ScanMembers(texts[1..], d);
      if i :| 0 <= i < |texts| && d in Digests(texts[i]) {
        assert i > 0 ==> d in Digests(texts[1..][i - 1]);
      }
      if i :| 0 <= i < |texts[1..]| && d in Digests(texts[1..][i]) {
        assert d in Digests(texts[i + 1]);
      }
    }
  }

  /** Two occurrences of the prefix never overlap, so searching on behind a match misses none. */
  lemma PrefixesDoNotOverlap(text: string, i: nat, j: nat)
    requires OccursAt(text, DIGEST_PREFIX, i) && i < j < i + |DIGEST_PREFIX|
    ensures !OccursAt(text, DIGEST_PREFIX, j)
  {
    var k := j - i;
    assert text[i..i + 7][k] == text[j];
    assert DIGEST_PREFIX[k] != 's';
    assert j + 7 <= |text| ==> text[j..j + 7][0] == text[j];
  }

  /** The digests that begin before position `n`. */
  function DigestsBefore(text: string, n: nat): set<string> {
    set i | 0 <= i < n && i < |text| && DigestAt(text, i) && i + DIGEST_LEN <= |text| :: text[i..i + DIGEST_LEN]
  }

  lemma DigestsBeforeNext(text: string, n: nat, m: nat)
    requires n < m && n < |text| && forall k :: n < k < m ==> !DigestAt(text, k)
    ensures DigestsBefore(text, m)
            == DigestsBefore(text, n) + if DigestAt(text, n) then {text[n..n + DIGEST_LEN]} else {}
  {
    if DigestAt(text, n) {
      assert text[n..n + DIGEST_LEN] in DigestsBefore(text, m);
    }
    forall d | d in DigestsBefore(text, n) ensures d in DigestsBefore(text, m) {
      var i :| 0 <= i < n && i < |text| && DigestAt(text, i) && d == text[i..i + DIGEST_LEN];
      assert d == text[i..i + DIGEST_LEN];
    }
  }

  method ExtractDigests(text: string, known: set<string>) returns (out: set<string>)
    ensures out == known + Digests(text)
  {
    out := known;
    var i := 0;
    while i < |text|
      invariant 0 <= i
      invariant out == known + DigestsBefore(text, i)
      decreases |text| - i
    {
      var next := i + 1;
      if OccursAt(text, DIGEST_PREFIX, i) {
        next := i + |DIGEST_PREFIX|;
        forall k | i < k < next ensures !DigestAt(text, k) {
          PrefixesDoNotOverlap(text, i, k);
        }
        if i + DIGEST_LEN <= |text| && AllHex(text[i + |DIGEST_PREFIX|..i + DIGEST_LEN]) {
          out := out + {text[i..i + DIGEST_LEN]};
        }
      }
      DigestsBeforeNext(text, i, next);
      i := next;
    }
    assert DigestsBefore(text, i) == Digests(text);
  }

  // ---------------------------------------------------------------- collecting

  predicate Live(p: ObjectPath, referenced: set<string>) {
    IsObjectName(p) && DIGEST_PREFIX + p.0 + p.1 in referenced
  }

  /** Everything goes that is not live, except what cannot be deleted. */
  function Collected(files: Files, referenced: set<string>, deletable: set<ObjectPath>): Files {
    map p | p in files && (Live(p, referenced) || p !in deletable) :: files[p]
  }

  /** A marker line in any persisted text keeps its object: after the collection it opens to what was stored. */
  lemma CollectorKeepsReferenced(h: Bytes -> string, files: Files, b: Bytes, mime: string, texts: seq<string>, k: nat,
                                 before: string, after: string, deletable: set<ObjectPath>)
    requires IsDigestFunction(h) && Holds(h, files, b)
    requires k < |texts| && texts[k] == before + RenderRefLine(RefTo(h, b, mime)) + after
    ensures Open(Collected(files, Scan(texts), deletable), RefTo(h, b, mime)) == Ok(b)
  {
    PathOfParts(h(b));
    RenderedDigestIsFound(before, RefTo(h, b, mime), after);
    ScanMembers(texts, DIGEST_PREFIX + h(b));
    KeepsScanned(h, files, b, Scan(texts), deletable);
    OpensIffHeld(h, Collected(files, Scan(texts), deletable), b, mime);
  }

  lemma KeepsScanned(h: Bytes -> string, files: Files, b: Bytes, referenced: set<string>, deletable: set<ObjectPath>)
    requires IsDigestFunction(h) && PathOf(h(b)) in files && DIGEST_PREFIX + h(b) in referenced
    ensures PathOf(h(b)) in Collected(files, referenced, deletable)
    ensures Collected(files, referenced, deletable)[PathOf(h(b))] == files[PathOf(h(b))]
    ensures Sound(h, files) ==> Sound(h, Collected(files, referenced, deletable))
  {
    PathOfParts(h(b));
    var p := PathOf(h(b));
    assert DIGEST_PREFIX + p.0 + p.1 == DIGEST_PREFIX + h(b);
  }

  /** An object whose digest stands in no persisted text is deleted, if it can be. */
  lemma CollectorRemovesUnreferenced(files: Files, texts: seq<string>, deletable: set<ObjectPath>, hex: string)
    requires |hex| == HEX_LEN && AllHex(hex)
    requires forall k :: 0 <= k < |texts| ==> DIGEST_PREFIX + hex !in Digests(texts[k])
    requires PathOf(hex) in deletable
    ensures Open(Collected(files, Scan(texts), deletable), AttachmentRef(DIGEST_PREFIX + hex, "", 0)) == Err(NotFound)
  {
    PathOfParts(hex);
    ScanMembers(texts, DIGEST_PREFIX + hex);
    var p := PathOf(hex);
    assert DIGEST_PREFIX + p.0 + p.1 == DIGEST_PREFIX + hex;
  }

  // ---------------------------------------------------------------- the collector as documented

  predicate IsTemporary(p: ObjectPath) {
    Contains(p.1, ".tmp-")
  }

  /** As documented: unreferenced objects and temporary files go, and nothing else. */
  function DocumentedCollected(files: Files, referenced: set<string>, deletable: set<ObjectPath>): Files {
    map p | p in files && !(p in deletable && ((IsObjectName(p) && !Live(p, referenced)) || IsTemporary(p))) :: files[p]
  }

  lemma TemporaryIsNoObject(p: ObjectPath)
    requires IsTemporary(p)
    ensures !IsObjectName(p)
  {
    var i :| 0 <= i <= |p.1| && OccursAt(p.1, ".tmp-", i);
    assert p.1[i] == p.1[i..i + 5][0] == '.';
    assert !IsHexDigit(p.1[i]);
  }

  /** The collector does what is documented exactly when all it can delete are objects and temporary files. */
  lemma CollectorAsDocumentedIff(files: Files, referenced: set<string>, deletable: set<ObjectPath>)
    ensures Collected(files, referenced, deletable) == DocumentedCollected(files, referenced, deletable)
            <==> forall p :: p in files && p in deletable ==> IsObjectName(p) || IsTemporary(p)
  {
    var code, doc := Collected(files, referenced, deletable), DocumentedCollected(files, referenced, deletable);
    forall p | p in files ensures (p in code <==> p in doc) <==> (p in deletable ==> IsObjectName(p) || IsTemporary(p)) {
      if IsTemporary(p) {
        TemporaryIsNoObject(p);
      }
    }
    if forall p :: p in files && p in deletable ==> IsObjectName(p) || IsTemporary(p) {
      assert code.Keys == doc.Keys;
    }
  }

  /** A file somebody else put into a prefix directory is deleted, against the documentation. */
  lemma CollectorDeletesForeignFile(content: Bytes)
    ensures var p := ("ab", "notes.txt");
            && p !in Collected(map[p := content], {}, {p})
            && DocumentedCollected(map[p := content], {}, {p}) == map[p := content]
  {
    var p := ("ab", "notes.txt");
    assert p.1[0] == 'n' && p.1[5] == '.' && p.1[6] == 't' && p.1[7] == 'x';
    forall i | 0 <= i <= |p.1| ensures !OccursAt(p.1, ".tmp-", i) {
      if i + 5 <= |p.1| {
        assert p.1[i] == p.1[i..i + 5][0];
      }
    }
  }

  // ---------------------------------------------------------------- runs

  datatype World = World(files: Files, texts: seq<string>)

  datatype Event =
    | Store(b: Bytes, written: bool)
    | Persist(text: string)
    | Collect(deletable: set<ObjectPath>)

  function Apply(h: Bytes -> string, w: World, e: Event): World
    requires IsDigestFunction(h)
  {
    match e
    case Store(b, written) => if written then w.(files := Stored(h, w.files, b)) else w
    case Persist(text) => w.(texts := w.texts + [text])
    case Collect(deletable) => w.(files := Collected(w.files, Scan(w.texts), deletable))
  }

  function Run(h: Bytes -> string, w: World, es: seq<Event>): World
    requires IsDigestFunction(h)
    decreases |es|
  {
    if es == [] then w else Run(h, Apply(h, w, es[0]), es[1..])
  }

  /** Once an object is there and its digest persisted, no later store, text or collection ever breaks the reference. */
  lemma {:induction false} LiveReferenceSurvives(h: Bytes -> string, w: World, es: seq<Event>, b: Bytes, mime: string)
    requires IsDigestFunction(h) && Holds(h, w.files, b) && DIGEST_PREFIX + h(b) in Scan(w.texts)
    ensures Open(Run(h, w, es).files, RefTo(h, b, mime)) == Ok(b)
    decreases |es|
  {
    if es == [] {
      OpensIffHeld(h, w.files, b, mime);
    } else {
      match es[0] {
        case Store(c, written) =>
        case Persist(text) => ScanSnoc(w.texts, text);
        case Collect(deletable) => KeepsScanned(h, w.files, b, Scan(w.texts), deletable);
      }
      LiveReferenceSurvives(h, Apply(h, w, es[0]), es[1..], b, mime);
    }
  }

  /** The payloads a run stores. */
  function Payloads(es: seq<Event>): set<Bytes> {
    set i | 0 <= i < |es| && es[i].Store? :: es[i].b
  }

  ghost predicate NoCollection(es: seq<Event>) {
    forall i :: 0 <= i < |es| ==> !es[i].Collect?
  }

  lemma {:induction false} RunConcat(h: Bytes -> string, w: World, a: seq<Event>, b: seq<Event>)
    requires IsDigestFunction(h)
    ensures Run(h, w, a + b) == Run(h, Run(h, w, a), b)
    decreases |a|
  {
    if a == [] {
      assert a + b == b;
    } else {
      assert (a + b)[0] == a[0] && (a + b)[1..] == a[1..] + b;
      RunConcat(h, Apply(h, w, a[0]), a[1..], b);
    }
  }

  lemma StepIsSound(h: Bytes -> string, w: World, e: Event)
    requires IsDigestFunction(h) && Sound(h, w.files)
    ensures Sound(h, Apply(h, w, e).files)
    ensures Apply(h, w, e).files.Values <= w.files.Values + (if e.Store? then {e.b} else {})
  {
    if e.Store? {
      StoringIsSound(h, w.files, e.b);
    }
  }

  /** Over every run the store stays sound, and holds only what it held before and what the run stored. */
  lemma {:induction false} EveryRunIsSound(h: Bytes -> string, w: World, es: seq<Event>)
    requires IsDigestFunction(h) && Sound(h, w.files)
    ensures Sound(h, Run(h, w, es).files)
    ensures Run(h, w, es).files.Values <= w.files.Values + Payloads(es)
    decreases |es|
  {
    if es != [] {
      StepIsSound(h, w, es[0]);
      EveryRunIsSound(h, Apply(h, w, es[0]), es[1..]);
      assert Payloads(es[1..]) <= Payloads(es) by {
        forall c | c in Payloads(es[1..]) ensures c in Payloads(es) {
          var i :| 0 <= i < |es[1..]| && es[1..][i].Store? && es[1..][i].b == c;
          assert es[i + 1].b == c;
        }
      }
      assert es[0].Store? ==> es[0].b in Payloads(es);
    }
  }

  lemma {:induction false} HeldUntilCollected(h: Bytes -> string, w: World, es: seq<Event>, b: Bytes)
    requires IsDigestFunction(h) && Holds(h, w.files, b) && NoCollection(es)
    ensures Holds(h, Run(h, w, es).files, b)
    decreases |es|
  {
    if es != [] {
      assert !es[0].Collect?;
      HeldUntilCollected(h, Apply(h, w, es[0]), es[1..], b);
    }
  }

  /**
   The life of a reference.  From a sound store, after any events: a payload is stored, a text with its marker line
   is persisted before the next collection, and whatever follows, the reference opens to that payload; provided none
   of the payloads that were in the store or stored before collides with it.
   */
  lemma ReferenceNeverBreaks(h: Bytes -> string, w: World, before: seq<Event>, b: Bytes, between: seq<Event>, mime: string,
                             left: string, right: string, after: seq<Event>)
    requires IsDigestFunction(h) && Sound(h, w.files) && NoCollection(between)
    requires TellsApart(h, b, w.files.Values + Payloads(before))
    ensures var text := left + RenderRefLine(RefTo(h, b, mime)) + right;
            Open(Run(h, w, before + [Store(b, true)] + between + [Persist(text)] + after).files, RefTo(h, b, mime)) == Ok(b)
  {
    var text := left + RenderRefLine(RefTo(h, b, mime)) + right;
    var w1 := Run(h, w, before);
    EveryRunIsSound(h, w, before);
    StoreThenOpen(h, w1.files, b, mime);
    var w2 := Run(h, w, before + [Store(b, true)]);
    RunOne(h, w, before, Store(b, true));
    OpensIffHeld(h, w2.files, b, mime);
    var w3 := Run(h, w, before + [Store(b, true)] + between);
    RunConcat(h, w, before + [Store(b, true)], between);
    HeldUntilCollected(h, w2, between, b);
    var w4 := Run(h, w, before + [Store(b, true)] + between + [Persist(text)]);
    RunOne(h, w, before + [Store(b, true)] + between, Persist(text));
    PersistedIsScanned(h, w3.texts, b, mime, left, right);
    RunConcat(h, w, before + [Store(b, true)] + between + [Persist(text)], after);
    LiveReferenceSurvives(h, w4, after, b, mime);
  }

  lemma RunOne(h: Bytes -> string, w: World, es: seq<Event>, e: Event)
    requires IsDigestFunction(h)
    ensures Run(h, w, es + [e]) == Apply(h, Run(h, w, es), e)
  {
    RunConcat(h, w, es, [e]);
    var v := Run(h, w, es);
    assert [e][1..] == [] && Run(h, v, [e]) == Apply(h, v, e);
  }

  lemma PersistedIsScanned(h: Bytes -> string, texts: seq<string>, b: Bytes, mime: string, left: string, right: string)
    requires IsDigestFunction(h)
    ensures DIGEST_PREFIX + h(b) in Scan(texts + [left + RenderRefLine(RefTo(h, b, mime)) + right])
  {
    var text := left + RenderRefLine(RefTo(h, b, mime)) + right;
    PathOfParts(h(b));
    RenderedDigestIsFound(left, RefTo(h, b, mime), right);
    assert (texts + [text])[|texts|] == text;
    ScanMembers(texts + [text], DIGEST_PREFIX + h(b));
  }

  lemma ScanSnoc(texts: seq<string>, text: string)
    ensures Scan(texts) <= Scan(texts + [text])
  {
    forall d | d in Scan(texts) ensures d in Scan(texts + [text]) {
      ScanMembers(texts, d);
      var i :| 0 <= i < |texts| && d in Digests(texts[i]);
      assert (texts + [text])[i] == texts[i];
      ScanMembers(texts + [text], d);
    }
  }

  /** The order matters: an object collected before its reference is persisted is gone. */
  lemma UnpersistedObjectIsCollected(h: Bytes -> string, b: Bytes, mime: string)
    requires IsDigestFunction(h)
    ensures Open(Run(h, World(map[], []), [Store(b, true), Collect({PathOf(h(b))}),
                                           Persist(RenderRefLine(RefTo(h, b, mime)))]).files,
                 RefTo(h, b, mime)) == Err(NotFound)
  {
    var p := PathOf(h(b));
    PathOfParts(h(b));
    var es := [Store(b, true), Collect({p}), Persist(RenderRefLine(RefTo(h, b, mime)))];
    var w1 := Apply(h, World(map[], []), es[0]);
    var w2 := Apply(h, w1, es[1]);
    assert p !in w2.files;
    var w3 := Apply(h, w2, es[2]);
    assert es[1..] == [es[1], es[2]] && es[1..][1..] == [es[2]] && [es[2]][1..] == [];
    assert Run(h, w2, [es[2]]) == w3;
    assert Run(h, w1, es[1..]) == w3;
  }

  // ---------------------------------------------------------------- the store on disk

  datatype GcOutcome = GcOutcome(removedFiles: nat, removedBytes: nat, keptFiles: nat)

  /** Bytes held by all files. */
  ghost function Size(files: Files): nat
    decreases |files|
  {
    if files == map[] then 0
    else
      var p :| p in files;
      |files[p]| + Size(files - {p})
  }

  lemma {:induction false} SizeWithout(files: Files, p: ObjectPath)
    requires p in files
    ensures Size(files) == |files[p]| + Size(files - {p})
    decreases |files|
  {
    var q :| q in files && Size(files) == |files[q]| + Size(files - {q});
    if p != q {
      SizeWithout(files - {q}, p);
      SizeWithout(files - {p}, q);
      assert files - {q} - {p} == files - {p} - {q};
    }
  }

  /** `now` is `was` with the directories `swept` cleared of all that is neither live nor undeletable. */
  ghost predicate IsSwept(was: Files, now: Files, swept: set<string>, referenced: set<string>, deletable: set<ObjectPath>) {
    && (forall p :: p in now <==> p in was && (p.0 in swept ==> Live(p, referenced) || p !in deletable))
    && (forall p :: p in now ==> now[p] == was[p])
  }

  ghost predicate IsKept(was: Files, kept: set<ObjectPath>, swept: set<string>, referenced: set<string>) {
    forall p :: p in kept <==> p in was && p.0 in swept && Live(p, referenced)
  }

  lemma SweepOne(was: Files, before: Files, now: Files, swept: set<string>, prefix: string, referenced: set<string>,
                 deletable: set<ObjectPath>)
    requires IsSwept(was, before, swept, referenced, deletable)
    requires IsSwept(before, now, {prefix}, referenced, deletable)
    ensures IsSwept(was, now, swept + {prefix}, referenced, deletable)
  {
  }

  lemma KeepMore(was: Files, before: Files, kept: set<ObjectPath>, found: set<ObjectPath>, swept: set<string>,
                 prefix: string, referenced: set<string>, deletable: set<ObjectPath>)
    requires IsSwept(was, before, swept, referenced, deletable) && prefix !in swept
    requires IsKept(was, kept, swept, referenced) && IsKept(before, found, {prefix}, referenced)
    ensures IsKept(was, kept + found, swept + {prefix}, referenced) && |kept + found| == |kept| + |found|
  {
    assert kept !! found;
  }

  lemma AllSwept(was: Files, now: Files, kept: set<ObjectPath>, swept: set<string>, referenced: set<string>,
                 deletable: set<ObjectPath>)
    requires IsSwept(was, now, swept, referenced, deletable) && IsKept(was, kept, swept, referenced)
    requires forall p :: p in was ==> p.0 in swept
    ensures now == Collected(was, referenced, deletable)
    ensures kept == set p | p in was && Live(p, referenced)
  {
  }

  class AttachmentStore {
    var files: Files

    constructor ()
      ensures files == map[]
    {
      files := map[];
    }

    /** `written` tells whether the temporary file could be written and renamed into place. */
    method StoreBytes(h: Bytes -> string, b: Bytes, mime: string, written: bool)
      returns (r: Result<AttachmentRef, IoError>)
      requires IsDigestFunction(h)
      modifies this
      ensures files == if written then Stored(h, old(files), b) else old(files)
      ensures r.Ok? ==> r.value == RefTo(h, b, mime) && PathOf(h(b)) in files
      ensures r.Ok? ==> r.value.digest == "sha256:" + h(b) && r.value.mime == mime && r.value.size == |b|
      ensures r.Err? <==> !written && PathOf(h(b)) !in old(files)
    {
      var hex := h(b);
      var aref := AttachmentRef(DIGEST_PREFIX + hex, mime, |b|);
      if PathOf(hex) in files {
        return Ok(aref);
      }
      if !written {
        return Err(WriteFailed);
      }
      files := files[PathOf(hex) := b];
      return Ok(aref);
    }

    method GcUnreferenced(referenced: set<string>, deletable: set<ObjectPath>) returns (outcome: GcOutcome)
      modifies this
      ensures files == Collected(old(files), referenced, deletable)
      ensures outcome.removedFiles == |old(files)| - |files|
      ensures outcome.removedBytes == Size(old(files)) - Size(files)
      ensures outcome.keptFiles == |set p | p in old(files) && Live(p, referenced)|
    {
      outcome := GcOutcome(0, 0, 0);
      var prefixes := set p | p in files :: p.0;
      ghost var swept: set<string> := {};
      ghost var kept: set<ObjectPath> := {};
      while prefixes != {}
        invariant swept !! prefixes
        invariant forall p :: p in old(files) ==> p.0 in swept || p.0 in prefixes
        invariant IsSwept(old(files), files, swept, referenced, deletable)
        invariant outcome.removedFiles == |old(files)| - |files|
        invariant outcome.removedBytes == Size(old(files)) - Size(files)
        invariant outcome.keptFiles == |kept| && IsKept(old(files), kept, swept, referenced)
        decreases |prefixes|
      {
        var prefix :| prefix in prefixes;
        prefixes := prefixes - {prefix};
        ghost var before := files;
        ghost var found;
        outcome, found := SweepPrefixDir(prefix, referenced, deletable, outcome);
        SweepOne(old(files), before, files, swept, prefix, referenced, deletable);
        KeepMore(old(files), before, kept, found, swept, prefix, referenced, deletable);
        kept := kept + found;
        swept := swept + {prefix};
      }
      AllSwept(old(files), files, kept, swept, referenced, deletable);
    }

    method SweepPrefixDir(prefix: string, referenced: set<string>, deletable: set<ObjectPath>, outcome: GcOutcome)
      returns (r: GcOutcome, ghost kept: set<ObjectPath>)
      modifies this
      ensures IsSwept(old(files), files, {prefix}, referenced, deletable)
      ensures IsKept(old(files), kept, {prefix}, referenced)
      ensures r.removedFiles == outcome.removedFiles + |old(files)| - |files|
      ensures r.removedBytes == outcome.removedBytes + Size(old(files)) - Size(files)
      ensures r.keptFiles == outcome.keptFiles + |kept|
    {
      r, kept := outcome, {};
      var entries := set p | p in files && p.0 == prefix;
      ghost var done: set<ObjectPath> := {};
      while entries != {}
        invariant forall p :: p in old(files) && p.0 == prefix <==> p in done || p in entries
        invariant done !! entries
        invariant forall p :: p in files <==> p in old(files) && (p in done ==> Live(p, referenced) || p !in deletable)
        invariant forall p :: p in files ==> files[p] == old(files)[p]
        invariant forall p :: p in kept <==> p in done && Live(p, referenced)
        invariant r.removedFiles == outcome.removedFiles + |old(files)| - |files|
        invariant r.removedBytes == outcome.removedBytes + Size(old(files)) - Size(files)
        invariant r.keptFiles == outcome.keptFiles + |kept|
        decreases |entries|
      {
        var p :| p in entries;
        entries := entries - {p};
        var isObject := |p.0| == 2 && |p.1| == HEX_LEN - 2 && AllHex(p.0) && AllHex(p.1);
        if isObject && DIGEST_PREFIX + p.0 + p.1 in referenced {
          kept := kept + {p};
          r := r.(keptFiles := r.keptFiles + 1);
        } else if p in deletable {
          var rest := files - {p};
          assert rest.Keys == files.Keys - {p};
          SizeWithout(files, p);
          r := r.(removedFiles := r.removedFiles + 1, removedBytes := r.removedBytes + |files[p]|);
          files := rest;
        }
        done := done + {p};
      }
    }
  }
}
