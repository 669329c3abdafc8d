/**
The deterministic identifiers of core/identity.py. A string handed to the hash is first
turned into bytes by `utf8`, and bytes are written here as characters; the hash itself and
`utf8` are parameters that are only assumed to be injective where a lemma says so.
*/
module Identity {
  import opened Wrappers
  import opened Text

  // ---- The length-prefixed stream inside `_digest` ----

  /** The bytes the hasher is fed for a list of already encoded fields. */
  function Framed(fields: seq<string>): string {
    if fields == [] then "" else Decimal(|fields[0]|) + ":" + fields[0] + Framed(fields[1..])
  }

  /** How many digits a stream starts with. */
  function LeadingDigits(s: string): (k: nat)
    ensures k <= |s| && AllDigits(s[..k]) && (k < |s| ==> !IsDigit(s[k]))
  {
    if s == "" || !IsDigit(s[0]) then 0 else 1 + LeadingDigits(s[1..])
  }

  /** A reader for the stream, which the source has no need of: it is the proof that the stream says what was hashed. */
  function Unframed(s: string): Option<seq<string>>
    decreases |s|
  {
    if s == "" then Some([])
    else
      var k := LeadingDigits(s);
      if k == 0 || k == |s| || s[k] != ':' || |s| < k + 1 + Value(s[..k]) then None
      else
        var end := k + 1 + Value(s[..k]);
        match Unframed(s[end..])
        case None => None
        case Some(rest) => Some([s[k + 1..end]] + rest)
  }

  lemma {:induction false} LeadingDigitsOf(digits: string, rest: string)
    requires AllDigits(digits) && (rest == "" || !IsDigit(rest[0]))
    ensures LeadingDigits(digits + rest) == |digits|
  {
    if digits == "" {
      assert digits + rest == rest;
    } else {
      assert (digits + rest)[1..] == digits[1..] + rest;
      LeadingDigitsOf(digits[1..], rest);
    }
  }

  /** A field preceded by its length is read off whatever follows it. */
  lemma {:induction false} UnframesFirst(length: string, head: string, rest: string)
    requires AllDigits(length) && length != "" && Value(length) == |head|
    ensures Unframed(length + ":" + head + rest)
         == match Unframed(rest) case None => None case Some(fields) => Some([head] + fields)
  {
    var s, tail := length + ":" + head + rest, ":" + head + rest;
    assert s == length + tail;
    LeadingDigitsOf(length, tail);
    assert s[..|length|] == length && s[|length|] == ':';
    assert s[|length| + 1..|length| + 1 + |head|] == head;
    assert s[|length| + 1 + |head|..] == rest;
  }

  lemma {:induction false} FramingRoundTrip(fields: seq<string>)
    ensures Unframed(Framed(fields)) == Some(fields)
  {
    if fields != [] {
      var head := fields[0];
      DecimalRoundTrip(|head|);
      assert Framed(fields) == Decimal(|head|) + ":" + head + Framed(fields[1..]);
      UnframesFirst(Decimal(|head|), head, Framed(fields[1..]));
      FramingRoundTrip(fields[1..]);
      assert [head] + fields[1..] == fields;
    }
  }

  /** No list of fields can impersonate another, whatever their number. */
  lemma {:induction false} FramingInjective(a: seq<string>, b: seq<string>)
    requires Framed(a) == Framed(b)
    ensures a == b
  {
    FramingRoundTrip(a);
    FramingRoundTrip(b);
  }

  ghost predicate Injective(f: string -> string) {
    forall x, y :: f(x) == f(y) ==> x == y
  }

  function Encoded(utf8: string -> string, parts: seq<string>): seq<string> {
    seq(|parts|, i requires 0 <= i < |parts| => utf8(parts[i]))
  }

  function DigestOf(sha: string -> string, utf8: string -> string, parts: seq<string>): string {
    sha(Framed(Encoded(utf8, parts)))
  }

  lemma {:induction false} FeedOne(fed: string, field: string, later: seq<string>)
    ensures fed + Framed([field] + later) == fed + Decimal(|field|) + ":" + field + Framed(later)
  {
    assert ([field] + later)[1..] == later;
    var length := Decimal(|field|);
    assert Framed([field] + later) == length + ":" + field + Framed(later);
    assert fed + (length + ":" + field + Framed(later)) == fed + length + ":" + field + Framed(later);
  }

  /** `_digest`: the hasher accumulates what it is fed and hashes it at the end. */
  method Digest(sha: string -> string, utf8: string -> string, parts: seq<string>) returns (hex: string)
    ensures hex == DigestOf(sha, utf8, parts)
  {
    var fed := "";
    ghost var all := Encoded(utf8, parts);
    for i := 0 to |parts|
      invariant fed + Framed(all[i..]) == Framed(all)
    {
      var encoded := utf8(parts[i]);
      assert all[i..] == [encoded] + all[i + 1..];
      FeedOne(fed, encoded, all[i + 1..]);
      fed := fed + Decimal(|encoded|) + ":";
      fed := fed + encoded;
    }
    assert all[|parts|..] == [] && fed + "" == fed;
    hex := sha(fed);
  }

  lemma {:induction false} DigestInjective(sha: string -> string, utf8: string -> string, a: seq<string>,
                                           b: seq<string>)
    requires Injective(sha) && Injective(utf8)
    ensures DigestOf(sha, utf8, a) == DigestOf(sha, utf8, b) <==> a == b
  {
    if DigestOf(sha, utf8, a) == DigestOf(sha, utf8, b) {
      FramingInjective(Encoded(utf8, a), Encoded(utf8, b));
      assert |Encoded(utf8, a)| == |a| && |Encoded(utf8, b)| == |b|;
      forall i | 0 <= i < |a| ensures a[i] == b[i] {
        assert Encoded(utf8, a)[i] == Encoded(utf8, b)[i];
      }
    }
  }

  // ---- `normalise_source` ----

  /** Letters are ASCII here. */
  predicate IsAlpha(c: char) {
    'A' <= c <= 'Z' || 'a' <= c <= 'z'
  }

  function Slashed(s: string): string {
    seq(|s|, i requires 0 <= i < |s| => if s[i] == '\\' then '/' else s[i])
  }

  /** The first position of `pattern`, or the length when there is none. */
  function Find(s: string, pattern: string): (i: nat)
    ensures i <= |s|
  {
    if s == "" || pattern <= s then 0 else 1 + Find(s[1..], pattern)
  }

  predicate Contains(s: string, pattern: string) {
    pattern <= s[Find(s, pattern)..]
  }

  datatype Refusal = NulByte

  function NormaliseSource(source: string): Result<string, Refusal> {
    if '\0' in source then Err(NulByte)
    else if Contains(source, "://") then Ok(source)
    else
      var normalised := Slashed(source);
      var cut := Find(normalised, ":/");
      if Contains(normalised, ":/") && cut == 1 && IsAlpha(normalised[0])
      then Ok(Lower(normalised[..1]) + ":/" + Lower(normalised[3..]))
      else Ok(normalised)
  }

  lemma {:induction false} FindSame(s: string, t: string, pattern: string)
    requires pattern != "" && |s| == |t|
    requires forall i :: 0 <= i <= |s| ==> (pattern <= s[i..] <==> pattern <= t[i..])
    ensures Find(s, pattern) == Find(t, pattern)
  {
    assert s[0..] == s && t[0..] == t;
    if s != "" && !(pattern <= s) {
      forall i | 0 <= i <= |s[1..]| ensures pattern <= s[1..][i..] <==> pattern <= t[1..][i..] {
        assert s[1..][i..] == s[i + 1..] && t[1..][i..] == t[i + 1..];
      }
      FindSame(s[1..], t[1..], pattern);
    }
  }

  /** A Windows path: one letter, then `:/`. */
  predicate Drive(s: string) {
    |s| >= 3 && IsAlpha(s[0]) && s[1] == ':' && s[2] == '/'
  }

  lemma {:induction false} PartitionFindsTheDrive(s: string)
    ensures Contains(s, ":/") && Find(s, ":/") == 1 && IsAlpha(s[0]) <==> Drive(s)
    ensures Drive(s) ==> s == s[..1] + ":/" + s[3..]
  {
    if |s| >= 1 {
      var t := s[1..];
      assert ":/" <= t <==> |t| >= 2 && t[0] == ':' && t[1] == '/';
      assert ":/" <= s <==> |s| >= 2 && s[0] == ':' && s[1] == '/';
      assert Find(t, ":/") == 0 <==> t == "" || ":/" <= t;
      assert Find(s, ":/") == 1 <==> !(":/" <= s) && Find(t, ":/") == 0;
      if Drive(s) {
        assert s[0] != ':';
      }
    }
  }

  lemma {:induction false} NormalForm(source: string)
    requires '\0' !in source && !Contains(source, "://")
    ensures NormaliseSource(source) == Ok(if Drive(Slashed(source)) then Lower(Slashed(source)) else Slashed(source))
  {
    var n := Slashed(source);
    PartitionFindsTheDrive(n);
    if Drive(n) {
      assert Lower(n) == Lower(n[..1]) + ":/" + Lower(n[3..]);
    }
  }

  /** Normalising a normal form changes nothing, even when normalising has just created a `://`. */
  lemma {:induction false} NormaliseIdempotent(source: string)
    requires NormaliseSource(source).Ok?
    ensures NormaliseSource(NormaliseSource(source).value) == NormaliseSource(source)
  {
    if !Contains(source, "://") {
      NormalForm(source);
      var r := NormaliseSource(source).value;
      assert '\0' !in r;
      if !Contains(r, "://") {
        NormalForm(r);
        assert Slashed(r) == r;
        assert Drive(r) ==> Lower(r) == r;
      }
    }
  }

  /** The pattern stands somewhere in the text. */
  ghost predicate Occurs(s: string, pattern: string) {
    exists i :: 0 <= i <= |s| && pattern <= s[i..]
  }

  lemma {:induction false} ContainsExactlyWhereItOccurs(s: string, pattern: string)
    requires pattern != ""
    ensures Contains(s, pattern) <==> Occurs(s, pattern)
    ensures forall i :: 0 <= i < Find(s, pattern) ==> !(pattern <= s[i..])
  {
    if s == "" || pattern <= s {
      assert s[0..] == s;
    } else {
      var rest := s[1..];
      ContainsExactlyWhereItOccurs(rest, pattern);
      assert s[Find(s, pattern)..] == rest[Find(rest, pattern)..];
      forall i | 0 < i <= |s| ensures s[i..] == rest[i - 1..] {
      }
      if i :| 0 <= i <= |s| && pattern <= s[i..] {
        assert s[0..] == s;
        assert pattern <= rest[i - 1..];
      }
      assert s[0..] == s;
    }
  }

  /** What normalising leaves as it is: a URL, or a path with no backslash that is no Windows path in capitals. */
  ghost predicate NormalAlready(source: string) {
    Occurs(source, "://")
    || ('\\' !in source
        && (|source| >= 3 && source[1..3] == ":/" && IsAlpha(source[0]) ==> Lower(source) == source))
  }

  /**
  A source is refused exactly for a NUL, and is its own identity exactly when it is a URL or a path
  in normal form; so no two URLs, and no two POSIX paths, are ever taken for one another.
  */
  lemma {:induction false} NormalFormsAreKept(source: string)
    ensures NormaliseSource(source).Err? <==> '\0' in source
    ensures '\0' !in source ==> (NormaliseSource(source) == Ok(source) <==> NormalAlready(source))
  {
    ContainsExactlyWhereItOccurs(source, "://");
    if '\0' !in source && !Occurs(source, "://") {
      NormalForm(source);
      var n := Slashed(source);
      if |source| >= 3 {
        assert source[1..3] == [source[1], source[2]];
      }
      if '\\' !in source {
        assert n == source;
      } else {
        var i :| 0 <= i < |source| && source[i] == '\\';
        assert n[i] == '/' && Lower(n)[i] == '/';
      }
    }
  }

  /** Two spellings of one Windows path, differing in case and slash direction only, are one document. */
  lemma {:induction false} SpellingsOfOneWindowsPathAgree(a: string, b: string)
    requires '\0' !in a && '\0' !in b && !Contains(a, "://") && !Contains(b, "://")
    requires Drive(Slashed(a)) && Lower(Slashed(a)) == Lower(Slashed(b))
    ensures NormaliseSource(a) == NormaliseSource(b)
  {
    NormalForm(a);
    NormalForm(b);
    var x, y := Slashed(a), Slashed(b);
    assert |x| == |Lower(x)| == |Lower(y)| == |y|;
    assert Lower(x)[0] == Lower(y)[0] && Lower(x)[1] == Lower(y)[1] && Lower(x)[2] == Lower(y)[2];
  }

  // ---- Document and chunk identity, before truncation to sixteen characters ----

  function TenantOrEmpty(tenant: Option<string>): string {
    if tenant.Some? then tenant.value else ""
  }

  function DocumentDigest(sha: string -> string, utf8: string -> string, source: string, tenant: Option<string>)
    : Result<string, Refusal>
  {
    match NormaliseSource(source)
    case Err(e) => Err(e)
    case Ok(normal) => Ok(DigestOf(sha, utf8, [normal, TenantOrEmpty(tenant)]))
  }

  function ChunkDigest(sha: string -> string, utf8: string -> string, document: string, index: nat,
                       chunker: string): string {
    DigestOf(sha, utf8, [document, Decimal(index), chunker])
  }

  /** A document is its normalised source and its tenant, where no tenant and the empty tenant are the same. */
  lemma {:induction false} DocumentsCollideOnlyWhenEqual(sha: string -> string, utf8: string -> string, a: string,
                                                         s: Option<string>, b: string, t: Option<string>)
    requires Injective(sha) && Injective(utf8)
    requires NormaliseSource(a).Ok? && NormaliseSource(b).Ok?
    ensures DocumentDigest(sha, utf8, a, s) == DocumentDigest(sha, utf8, b, t)
       <==> NormaliseSource(a) == NormaliseSource(b) && TenantOrEmpty(s) == TenantOrEmpty(t)
  {
    var x := [NormaliseSource(a).value, TenantOrEmpty(s)];
    var y := [NormaliseSource(b).value, TenantOrEmpty(t)];
    DigestInjective(sha, utf8, x, y);
    assert x == y <==> x[0] == y[0] && x[1] == y[1];
  }

  lemma {:induction false} ChunksCollideOnlyWhenEqual(sha: string -> string, utf8: string -> string, d: string, i: nat,
                                                      c: string, d': string, i': nat, c': string)
    requires Injective(sha) && Injective(utf8)
    ensures ChunkDigest(sha, utf8, d, i, c) == ChunkDigest(sha, utf8, d', i', c') <==> d == d' && i == i' && c == c'
  {
    var x, y := [d, Decimal(i), c], [d', Decimal(i'), c'];
    DigestInjective(sha, utf8, x, y);
    DecimalRoundTrip(i);
    DecimalRoundTrip(i');
    assert x == y <==> x[0] == y[0] && x[1] == y[1] && x[2] == y[2];
  }

  /** A document and a chunk hash lists of different lengths, and never meet. */
  lemma {:induction false} DocumentsNeverCollideWithChunks(sha: string -> string, utf8: string -> string,
                                                           source: string, tenant: Option<string>, d: string, i: nat,
                                                           c: string)
    requires Injective(sha) && Injective(utf8) && NormaliseSource(source).Ok?
    ensures DocumentDigest(sha, utf8, source, tenant) != Ok(ChunkDigest(sha, utf8, d, i, c))
  {
    DigestInjective(sha, utf8, [NormaliseSource(source).value, TenantOrEmpty(tenant)], [d, Decimal(i), c]);
  }
}
