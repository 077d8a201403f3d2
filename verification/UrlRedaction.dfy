/**
 avutil_log_redact_url_secrets of FFmpegKitConfig.cpp: the user information and the query of
 every URL in a log line are overwritten with asterisks, in place. The reference is a scan that
 never writes: it lists the URLs of the line, and says which bytes are secret.
 */
module UrlRedaction {
  import opened Common

  const STAR: Byte := 0x2A
  const COLON: Byte := 0x3A
  const SLASH: Byte := 0x2F
  const AT: Byte := 0x40
  const QUESTION: Byte := 0x3F
  const HASH: Byte := 0x23

  /** The boundary characters, the terminating NUL aside. */
  predicate IsBoundary(b: Byte) {
    b in {0, 0x20, 0x09, 0x0A, 0x0D, 0x27, 0x22, 0x3C, 0x3E, 0x29, 0x5D, 0x7D}
  }

  predicate IsAlpha(b: Byte) {
    0x41 <= b <= 0x5A || 0x61 <= b <= 0x7A
  }

  predicate IsSchemeCharacter(b: Byte) {
    IsAlpha(b) || 0x30 <= b <= 0x39 || b == 0x2B || b == 0x2D || b == 0x2E
  }

  // ---- Reading a line ---------------------------------------------------------------------------

  predicate SeparatorAt(s: seq<Byte>, i: nat) {
    i + 3 <= |s| && s[i] == COLON && s[i + 1] == SLASH && s[i + 2] == SLASH
  }

  /** The first "://" from i on; the end of the line if there is none. */
  function FindSeparator(s: seq<Byte>, i: nat): (r: nat)
    requires i <= |s|
    ensures i <= r <= |s| && (r < |s| ==> SeparatorAt(s, r))
    ensures forall j: nat | i <= j < r :: !SeparatorAt(s, j)
    ensures r == |s| ==> forall j: nat | i <= j :: !SeparatorAt(s, j)
    decreases |s| - i
  {
    if i == |s| || SeparatorAt(s, i) then i else FindSeparator(s, i + 1)
  }

  /** Where the run of scheme characters that ends at i starts. */
  function SchemeStart(s: seq<Byte>, i: nat): (r: nat)
    requires i <= |s|
    ensures r <= i && (forall j | r <= j < i :: IsSchemeCharacter(s[j]))
    ensures r > 0 ==> !IsSchemeCharacter(s[r - 1])
  {
    if i > 0 && IsSchemeCharacter(s[i - 1]) then SchemeStart(s, i - 1) else i
  }

  predicate HasScheme(s: seq<Byte>, separator: nat)
    requires separator <= |s|
  {
    var scheme := SchemeStart(s, separator);
    scheme < separator && IsAlpha(s[scheme])
  }

  function UrlEnd(s: seq<Byte>, i: nat): (r: nat)
    requires i <= |s|
    ensures i <= r <= |s| && (r < |s| ==> IsBoundary(s[r]))
    ensures forall j | i <= j < r :: !IsBoundary(s[j])
    decreases |s| - i
  {
    if i == |s| || IsBoundary(s[i]) then i else UrlEnd(s, i + 1)
  }

  predicate EndsAuthority(b: Byte) {
    b == SLASH || b == QUESTION || b == HASH
  }

  function AuthorityEnd(s: seq<Byte>, i: nat, end: nat): (r: nat)
    requires i <= end <= |s|
    ensures i <= r <= end && (r < end ==> EndsAuthority(s[r]))
    ensures forall j | i <= j < r :: !EndsAuthority(s[j])
    decreases end - i
  {
    if i == end || EndsAuthority(s[i]) then i else AuthorityEnd(s, i + 1, end)
  }

  /** The last '@' of [i, end), or i if there is none: everything before it is user information. */
  function UserinfoEnd(s: seq<Byte>, i: nat, end: nat): (r: nat)
    requires i <= end <= |s|
    ensures i <= r <= end && (r > i ==> r < end && s[r] == AT)
    ensures forall j | r < j < end :: s[j] != AT
    decreases end - i
  {
    if i == end then i
    else if s[end - 1] == AT then end - 1
    else UserinfoEnd(s, i, end - 1)
  }

  predicate StartsQuery(b: Byte) {
    b == QUESTION || b == HASH
  }

  /** Just after the first '?' or '#' of [i, end), or end if there is none. */
  function QueryStart(s: seq<Byte>, i: nat, end: nat): (r: nat)
    requires i <= end <= |s|
    ensures i <= r <= end
    ensures (r > i && StartsQuery(s[r - 1]) && forall j | i <= j < r - 1 :: !StartsQuery(s[j]))
      || (r == end && forall j | i <= j < end :: !StartsQuery(s[j]))
    decreases end - i
  {
    if i == end then end else if StartsQuery(s[i]) then i + 1 else QueryStart(s, i + 1, end)
  }

  /** The URL whose separator is at `separator`: secrets are [authority, userinfoEnd) and [query, end). */
  datatype Url = Url(authority: nat, userinfoEnd: nat, query: nat, end: nat)

  function UrlAt(s: seq<Byte>, separator: nat): (u: Url)
    requires SeparatorAt(s, separator)
    ensures u.authority == separator + 3 && u.authority <= u.userinfoEnd <= u.query <= u.end <= |s|
    ensures u.end < |s| ==> IsBoundary(s[u.end])
  {
    var authority := separator + 3;
    var end := UrlEnd(s, authority);
    var authorityEnd := AuthorityEnd(s, authority, end);
    Url(authority, UserinfoEnd(s, authority, authorityEnd), QueryStart(s, authorityEnd, end), end)
  }

  /** The URLs of a line from the cursor on, read without changing anything. */
  function Urls(s: seq<Byte>, cursor: nat): seq<Url>
    requires cursor <= |s|
    decreases |s| - cursor
  {
    var separator := FindSeparator(s, cursor);
    if separator == |s| then []
    else if !HasScheme(s, separator) then Urls(s, separator + 3)
    else [UrlAt(s, separator)] + Urls(s, UrlAt(s, separator).end)
  }

  predicate Hides(u: Url, i: nat) {
    u.authority <= i < u.userinfoEnd || u.query <= i < u.end
  }

  predicate IsSecret(urls: seq<Url>, i: nat) {
    exists k | 0 <= k < |urls| :: Hides(urls[k], i)
  }

  /** The line with every secret byte, and no other, replaced. */
  function Redacted(s: seq<Byte>): (r: seq<Byte>)
    ensures |r| == |s|
  {
    seq(|s|, i requires 0 <= i < |s| => if IsSecret(Urls(s, 0), i) then STAR else s[i])
  }

  // ---- Redacting in place -------------------------------------------------------------------------

  function Fill(s: seq<Byte>, lo: nat, hi: nat): (r: seq<Byte>)
    requires lo <= hi <= |s|
    ensures |r| == |s| && forall i | 0 <= i < |s| :: r[i] == if lo <= i < hi then STAR else s[i]
  {
    s[..lo] + seq(hi - lo, i => STAR) + s[hi..]
  }

  function Mask(s: seq<Byte>, u: Url): (r: seq<Byte>)
    requires u.authority <= u.userinfoEnd <= u.query <= u.end <= |s|
    ensures |r| == |s| && forall i | 0 <= i < |s| :: r[i] == if Hides(u, i) then STAR else s[i]
  {
    Fill(Fill(s, u.authority, u.userinfoEnd), u.query, u.end)
  }

  /** What the loop makes of the line: each URL is masked before the next one is looked for. */
  function RedactFrom(s: seq<Byte>, cursor: nat): (r: seq<Byte>)
    requires cursor <= |s|
    ensures |r| == |s|
    decreases |s| - cursor
  {
    var separator := FindSeparator(s, cursor);
    if separator == |s| then s
    else if !HasScheme(s, separator) then RedactFrom(s, separator + 3)
    else RedactFrom(Mask(s, UrlAt(s, separator)), UrlAt(s, separator).end)
  }

  method StrStrSeparator(line: array<Byte>, cursor: nat, ghost n: nat) returns (separator: Option<nat>)
    requires cursor <= n < line.Length && line[n] == 0 && forall i | 0 <= i < n :: line[i] != 0
    ensures var r := FindSeparator(line[..n], cursor); separator == if r == n then None else Some(r)
  {
    ghost var text := line[..n];
    var i := cursor;
    while line[i] != 0
      invariant cursor <= i <= n && FindSeparator(text, i) == FindSeparator(text, cursor)
      decreases n - i
    {
      if line[i] == COLON && line[i + 1] == SLASH && line[i + 2] == SLASH {
        assert SeparatorAt(text, i);
        return Some(i);
      }
      assert !SeparatorAt(text, i);
      i := i + 1;
    }
    return None;
  }

  method Memset(line: array<Byte>, lo: nat, hi: nat)
    requires lo <= hi <= line.Length
    modifies line
    ensures line[..] == Fill(old(line[..]), lo, hi)
  {
    var i := lo;
    while i < hi
      invariant lo <= i <= hi && line[..] == Fill(old(line[..]), lo, i)
    {
      line[i] := STAR;
      i := i + 1;
    }
  }

  /** line holds text up to its terminator at n. */
  ghost predicate Holds(line: array<Byte>, n: nat)
    reads line
  {
    n < line.Length && line[n] == 0 && forall i | 0 <= i < n :: line[i] != 0
  }

  method SchemeBefore(line: array<Byte>, separator: nat, ghost n: nat) returns (scheme: nat)
    requires Holds(line, n) && separator <= n
    ensures scheme == SchemeStart(line[..n], separator)
  {
    scheme := separator;
    while scheme > 0 && IsSchemeCharacter(line[scheme - 1])
      invariant scheme <= separator && SchemeStart(line[..n], scheme) == SchemeStart(line[..n], separator)
    {
      scheme := scheme - 1;
    }
  }

  method UrlEndFrom(line: array<Byte>, authority: nat, ghost n: nat) returns (urlEnd: nat)
    requires Holds(line, n) && authority <= n
    ensures urlEnd == UrlEnd(line[..n], authority)
  {
    urlEnd := authority;
    while !IsBoundary(line[urlEnd])
      invariant authority <= urlEnd <= n && UrlEnd(line[..n], urlEnd) == UrlEnd(line[..n], authority)
      decreases n - urlEnd
    {
      urlEnd := urlEnd + 1;
    }
  }

  method AuthorityEndFrom(line: array<Byte>, authority: nat, urlEnd: nat, ghost n: nat) returns (authorityEnd: nat)
    requires Holds(line, n) && authority <= urlEnd <= n
    ensures authorityEnd == AuthorityEnd(line[..n], authority, urlEnd)
  {
    authorityEnd := authority;
    while authorityEnd < urlEnd && line[authorityEnd] != SLASH && line[authorityEnd] != QUESTION && line[authorityEnd] != HASH
      invariant authority <= authorityEnd <= urlEnd
      invariant AuthorityEnd(line[..n], authorityEnd, urlEnd) == AuthorityEnd(line[..n], authority, urlEnd)
    {
      authorityEnd := authorityEnd + 1;
    }
  }

  method LastAt(line: array<Byte>, authority: nat, authorityEnd: nat, ghost n: nat) returns (userinfoEnd: Option<nat>)
    requires Holds(line, n) && authority <= authorityEnd <= n
    ensures UserinfoEnd(line[..n], authority, authorityEnd) == if userinfoEnd.None? then authority else userinfoEnd.value
  {
    userinfoEnd := None;
    var part := authority;
    while part < authorityEnd
      invariant authority <= part <= authorityEnd
      invariant UserinfoEnd(line[..n], authority, part) == if userinfoEnd.None? then authority else userinfoEnd.value
    {
      if line[part] == AT {
        userinfoEnd := Some(part);
      }
      part := part + 1;
    }
  }

  method MaskQuery(line: array<Byte>, authorityEnd: nat, urlEnd: nat, ghost n: nat)
    requires Holds(line, n) && authorityEnd <= urlEnd <= n
    modifies line
    ensures line[..] == Fill(old(line[..]), QueryStart(old(line[..n]), authorityEnd, urlEnd), urlEnd)
  {
    var part := authorityEnd;
    while part < urlEnd
      invariant authorityEnd <= part <= urlEnd && line[..] == old(line[..])
      invariant QueryStart(line[..n], part, urlEnd) == QueryStart(old(line[..n]), authorityEnd, urlEnd)
    {
      if line[part] == QUESTION || line[part] == HASH {
        Memset(line, part + 1, urlEnd);
        return;
      }
      part := part + 1;
    }
  }

  /** The part of the loop body that writes: the URL at `separator` is masked. */
  method MaskUrl(line: array<Byte>, separator: nat, ghost n: nat) returns (urlEnd: nat)
    requires Holds(line, n) && SeparatorAt(line[..n], separator)
    modifies line
    ensures Holds(line, n) && line[n..] == old(line[n..])
    ensures var u := UrlAt(old(line[..n]), separator); line[..n] == Mask(old(line[..n]), u) && urlEnd == u.end
  {
    hide UrlEnd, AuthorityEnd, UserinfoEnd, QueryStart, Fill;
    ghost var now := line[..n];
    ghost var all := line[..];
    ghost var u := UrlAt(now, separator);
    var authority := separator + 3;
    urlEnd := UrlEndFrom(line, authority, n);
    var authorityEnd := AuthorityEndFrom(line, authority, urlEnd, n);
    var userinfoEnd := LastAt(line, authority, authorityEnd, n);
    if userinfoEnd.Some? {
      Memset(line, authority, userinfoEnd.value);
    }
    ghost var half := Fill(all, u.authority, u.userinfoEnd);
    assert line[..] == half;
    assert forall i | 0 <= i < line.Length :: line[i] == half[i];
    assert line[..n] == Fill(now, u.authority, u.userinfoEnd);
    QueryInMasked(now, separator);
    MaskQuery(line, authorityEnd, urlEnd, n);
    ghost var full := Fill(half, u.query, u.end);
    assert line[..] == full;
    assert forall i | 0 <= i < line.Length :: line[i] == full[i];
    assert line[..n] == Mask(now, u);
    assert line[n..] == all[n..];
  }

  /** One turn of the loop; no next cursor when there is no separator left. */
  method RedactNext(line: array<Byte>, cursor: nat, ghost n: nat) returns (next: Option<nat>)
    requires Holds(line, n) && cursor < n && StopsAtCursor(line[..n], line[..n], cursor)
    modifies line
    ensures Holds(line, n) && line[n..] == old(line[n..])
    ensures next.None? ==> line[..n] == old(line[..n]) == RedactFrom(old(line[..n]), cursor)
    ensures next.Some? ==> cursor < next.value <= n && StopsAtCursor(line[..n], line[..n], next.value)
    ensures next.Some? ==> RedactFrom(line[..n], next.value) == RedactFrom(old(line[..n]), cursor)
  {
    hide FindSeparator, SchemeStart, UrlAt, Mask, RedactFrom, IsSchemeCharacter;
    ghost var now := line[..n];
    RedactStep(now, now, cursor);
    var found := StrStrSeparator(line, cursor, n);
    if found.None? {
      return None;
    }
    var separator := found.value;
    var scheme := SchemeBefore(line, separator, n);
    if scheme == separator || !IsAlpha(line[scheme]) {
      SlashEndsScheme();
      return Some(separator + 3);
    }
    var urlEnd := MaskUrl(line, separator, n);
    assert urlEnd < n ==> line[..n][urlEnd] == now[urlEnd];
    next := Some(urlEnd);
  }

  method RedactUrlSecrets(line: array?<Byte>)
    requires line != null ==> 0 in line[..]
    modifies line
    ensures line != null ==>
      var n := StrLen(old(line[..]));
      line[..n] == Redacted(old(line[..])[..n]) && line[n..] == old(line[..])[n..]
  {
    hide StopsAtCursor, RedactFrom, Redacted;
    if line == null {
      return;
    }
    ghost var before := line[..];
    ghost var n := StrLen(before);
    ghost var text := before[..n];
    assert forall i | 0 <= i < line.Length :: before[i] == line[i];
    RedactsTheLine(text);
    StartStops(text);
    var cursor := 0;
    while line[cursor] != 0
      invariant cursor <= n && Holds(line, n) && StopsAtCursor(line[..n], line[..n], cursor)
      invariant line[n..] == before[n..]
      invariant RedactFrom(line[..n], cursor) == Redacted(text)
      decreases n - cursor
    {
      var next := RedactNext(line, cursor, n);
      if next.None? {
        return;
      }
      cursor := next.value;
    }
    NothingLeft(line[..n]);
  }

  lemma SlashEndsScheme()
    ensures !IsSchemeCharacter(SLASH)
  {
  }

  lemma StartStops(s: seq<Byte>)
    ensures StopsAtCursor(s, s, 0)
  {
  }

  lemma NothingLeft(s: seq<Byte>)
    ensures RedactFrom(s, |s|) == s
  {
  }

  // ---- Masking does not change what a scan finds ------------------------------------------------------

  /** The byte is the same, or it is hidden by u and has been replaced. */
  ghost predicate SameOrMasked(t: seq<Byte>, s: seq<Byte>, u: Url, i: nat)
    requires i < |s| == |t|
  {
    t[i] == s[i] || (Hides(u, i) && t[i] == STAR)
  }

  lemma SameQuery(t: seq<Byte>, s: seq<Byte>, i: nat, end: nat)
    requires i <= end <= |s| == |t|
    requires forall j | i <= j < end && j < QueryStart(s, i, end) :: t[j] == s[j]
    ensures QueryStart(t, i, end) == QueryStart(s, i, end)
    decreases end - i
  {
    if i < end && !StartsQuery(s[i]) {
      SameQuery(t, s, i + 1, end);
    }
  }

  lemma SameUserinfo(t: seq<Byte>, s: seq<Byte>, i: nat, end: nat)
    requires i <= end <= |s| == |t|
    requires forall j | UserinfoEnd(s, i, end) <= j < end :: t[j] == s[j]
    ensures UserinfoEnd(t, i, end) == UserinfoEnd(s, i, end)
    decreases end - i
  {
    if i < end && s[end - 1] != AT {
      SameUserinfo(t, s, i, end - 1);
    }
  }

  lemma SameAuthority(t: seq<Byte>, s: seq<Byte>, i: nat, end: nat)
    requires i <= end <= |s| == |t|
    requires forall j | i <= j < AuthorityEnd(s, i, end) :: t[j] == s[j] || t[j] == STAR
    requires AuthorityEnd(s, i, end) < end ==> t[AuthorityEnd(s, i, end)] == s[AuthorityEnd(s, i, end)]
    ensures AuthorityEnd(t, i, end) == AuthorityEnd(s, i, end)
    decreases end - i
  {
    if i < end && !EndsAuthority(s[i]) {
      SameAuthority(t, s, i + 1, end);
    }
  }

  lemma SameEnd(t: seq<Byte>, s: seq<Byte>, i: nat)
    requires i <= |s| == |t|
    requires forall j | i <= j < UrlEnd(s, i) :: t[j] == s[j] || t[j] == STAR
    requires UrlEnd(s, i) < |s| ==> t[UrlEnd(s, i)] == s[UrlEnd(s, i)]
    ensures UrlEnd(t, i) == UrlEnd(s, i)
    decreases |s| - i
  {
    if i < |s| && !IsBoundary(s[i]) {
      SameEnd(t, s, i + 1);
    }
  }

  /** Which bytes of a URL the mask leaves alone: every byte the scans look for. */
  lemma MaskSpares(t: seq<Byte>, s: seq<Byte>, separator: nat)
    requires |t| == |s| && SeparatorAt(s, separator)
    requires var u := UrlAt(s, separator);
             forall i | separator <= i <= u.end && i < |s| :: SameOrMasked(t, s, u, i)
    ensures SeparatorAt(t, separator)
    ensures var u := UrlAt(s, separator);
            var e := AuthorityEnd(s, u.authority, u.end);
            && (forall j | u.authority <= j < u.end :: t[j] == s[j] || t[j] == STAR)
            && (forall j | u.userinfoEnd <= j < u.query :: t[j] == s[j])
            && (u.end < |s| ==> t[u.end] == s[u.end])
            && u.userinfoEnd <= e <= u.query && (e < u.end ==> e < u.query)
  {
    hide UrlEnd, AuthorityEnd, UserinfoEnd, QueryStart;
    var u := UrlAt(s, separator);
    assert SameOrMasked(t, s, u, separator) && SameOrMasked(t, s, u, separator + 1) && SameOrMasked(t, s, u, separator + 2);
    var e := AuthorityEnd(s, u.authority, u.end);
    assert u.userinfoEnd <= e <= u.query && (e < u.end ==> e < u.query);
    hide UrlAt, SeparatorAt;
    forall j | u.authority <= j < u.end ensures t[j] == s[j] || t[j] == STAR {
      assert SameOrMasked(t, s, u, j);
    }
    forall j | u.userinfoEnd <= j < u.query ensures t[j] == s[j] {
      assert SameOrMasked(t, s, u, j);
    }
    if u.end < |s| {
      assert SameOrMasked(t, s, u, u.end);
    }
  }

  lemma UrlParts(s: seq<Byte>, separator: nat)
    requires SeparatorAt(s, separator)
    ensures var u := UrlAt(s, separator);
            && u.authority == separator + 3 && u.end == UrlEnd(s, separator + 3)
            && u.userinfoEnd == UserinfoEnd(s, u.authority, AuthorityEnd(s, u.authority, u.end))
            && u.query == QueryStart(s, AuthorityEnd(s, u.authority, u.end), u.end)
  {
  }

  /** A masked URL is found again, with the same parts: end, authority, last '@' and query. */
  lemma SameUrl(t: seq<Byte>, s: seq<Byte>, separator: nat)
    requires |t| == |s| && SeparatorAt(s, separator)
    requires var u := UrlAt(s, separator);
             forall i | separator <= i <= u.end && i < |s| :: SameOrMasked(t, s, u, i)
    ensures SeparatorAt(t, separator) && UrlAt(t, separator) == UrlAt(s, separator)
  {
    hide UrlAt, UrlEnd, AuthorityEnd, UserinfoEnd, QueryStart, SameOrMasked, SeparatorAt, IsBoundary, EndsAuthority, StartsQuery;
    var u := UrlAt(s, separator);
    var a := u.authority;
    var e := AuthorityEnd(s, a, u.end);
    MaskSpares(t, s, separator);
    UrlParts(s, separator);
    UrlParts(t, separator);
    SameEnd(t, s, a);
    SameAuthority(t, s, a, u.end);
    SameUserinfo(t, s, a, e);
    SameQuery(t, s, e, u.end);
  }

  lemma QueryInMasked(s: seq<Byte>, separator: nat)
    requires SeparatorAt(s, separator)
    ensures var u := UrlAt(s, separator);
            QueryStart(Fill(s, u.authority, u.userinfoEnd), AuthorityEnd(s, u.authority, u.end), u.end) == u.query
  {
    var u := UrlAt(s, separator);
    SameQuery(Fill(s, u.authority, u.userinfoEnd), s, AuthorityEnd(s, u.authority, u.end), u.end);
  }

  /** A backward scan for a scheme that starts at or after the cursor does not cross it. */
  ghost predicate StopsAtCursor(t: seq<Byte>, s: seq<Byte>, c: nat)
    requires c <= |s| == |t|
  {
    c == 0 || c == |s| || IsBoundary(s[c]) || (!IsSchemeCharacter(s[c - 1]) && t[c - 1] == s[c - 1])
  }

  lemma SameScheme(t: seq<Byte>, s: seq<Byte>, c: nat, i: nat)
    requires c <= i < |s| == |t| && StopsAtCursor(t, s, c)
    requires forall j | c <= j < i :: t[j] == s[j]
    requires i == c ==> !IsBoundary(s[c])
    ensures SchemeStart(t, i) == SchemeStart(s, i) >= c
    decreases i
  {
    if i > c && IsSchemeCharacter(s[i - 1]) {
      SameScheme(t, s, c, i - 1);
    }
  }

  lemma SameSeparator(t: seq<Byte>, s: seq<Byte>, c: nat)
    requires c <= |s| == |t|
    requires forall j | c <= j < |s| && j < FindSeparator(s, c) + 3 :: t[j] == s[j]
    ensures FindSeparator(t, c) == FindSeparator(s, c)
    decreases |s| - c
  {
    if c < |s| && !SeparatorAt(s, c) {
      assert FindSeparator(s, c) == FindSeparator(s, c + 1);
      SameSeparator(t, s, c + 1);
      assert !SeparatorAt(t, c);
    }
  }

  /** A scan of t from the cursor meets the same separator as a scan of s, with the same scheme before it. */
  lemma SameSearch(t: seq<Byte>, s: seq<Byte>, c: nat)
    requires c <= |s| == |t| && StopsAtCursor(t, s, c)
    requires forall j | c <= j < |s| && j < FindSeparator(s, c) + 3 :: t[j] == s[j]
    ensures FindSeparator(t, c) == FindSeparator(s, c)
    ensures FindSeparator(s, c) < |s| ==> HasScheme(t, FindSeparator(s, c)) == HasScheme(s, FindSeparator(s, c))
  {
    SameSeparator(t, s, c);
    var separator := FindSeparator(s, c);
    if separator < |s| {
      SameScheme(t, s, c, separator);
    }
  }

  // ---- Main results -----------------------------------------------------------------------------------

  lemma {:induction false} SecretsAreAhead(s: seq<Byte>, c: nat, i: nat)
    requires c <= |s| && IsSecret(Urls(s, c), i)
    ensures FindSeparator(s, c) + 3 <= i < |s|
    decreases |s| - c
  {
    var separator := FindSeparator(s, c);
    if separator < |s| {
      if !HasScheme(s, separator) {
        SecretsAreAhead(s, separator + 3, i);
      } else {
        var u := UrlAt(s, separator);
        var urls := Urls(s, c);
        var k :| 0 <= k < |urls| && Hides(urls[k], i);
        if k > 0 {
          assert urls[k] == Urls(s, u.end)[k - 1];
          SecretsAreAhead(s, u.end, i);
        }
      }
    }
  }

  lemma SecretsSplit(s: seq<Byte>, c: nat, i: nat)
    requires c <= |s| && FindSeparator(s, c) < |s| && HasScheme(s, FindSeparator(s, c))
    ensures var u := UrlAt(s, FindSeparator(s, c));
            IsSecret(Urls(s, c), i) <==> Hides(u, i) || IsSecret(Urls(s, u.end), i)
  {
    var u := UrlAt(s, FindSeparator(s, c));
    var urls, rest := Urls(s, c), Urls(s, u.end);
    assert urls == [u] + rest && urls[0] == u;
    if IsSecret(rest, i) {
      var k :| 0 <= k < |rest| && Hides(rest[k], i);
      assert urls[k + 1] == rest[k];
    }
    if IsSecret(urls, i) {
      var k :| 0 <= k < |urls| && Hides(urls[k], i);
      assert k > 0 ==> rest[k - 1] == urls[k];
    }
  }

  /** One turn of the loop on the partly masked line b, told by the original line s. */
  lemma RedactStep(b: seq<Byte>, s: seq<Byte>, c: nat)
    requires c <= |s| == |b| && StopsAtCursor(b, s, c)
    requires forall i | c <= i < |s| :: b[i] == s[i]
    ensures var separator := FindSeparator(s, c);
            RedactFrom(b, c) ==
              if separator == |s| then b
              else if !HasScheme(s, separator) then RedactFrom(b, separator + 3)
              else RedactFrom(Mask(b, UrlAt(s, separator)), UrlAt(s, separator).end)
  {
    hide FindSeparator, HasScheme, UrlAt, Mask;
    SameSearch(b, s, c);
    var separator := FindSeparator(s, c);
    if separator < |s| && HasScheme(s, separator) {
      SameUrl(b, s, separator);
    }
  }

  lemma NoUrlBeforeSeparator(s: seq<Byte>, c: nat, i: nat)
    requires c <= |s| && !(FindSeparator(s, c) < |s| && HasScheme(s, FindSeparator(s, c)))
    ensures IsSecret(Urls(s, c), i) <==>
            FindSeparator(s, c) < |s| && IsSecret(Urls(s, FindSeparator(s, c) + 3), i)
  {
  }

  /**
   Masking as the loop goes is the same as masking the URLs of the untouched line: b is the
   buffer when the loop is at c, s the original line.
   */
  lemma {:induction false} RedactsTheUrls(b: seq<Byte>, s: seq<Byte>, c: nat)
    requires c <= |s| == |b| && StopsAtCursor(b, s, c)
    requires forall i | c <= i < |s| :: b[i] == s[i]
    ensures forall i | 0 <= i < |s| ::
      RedactFrom(b, c)[i] == if i < c then b[i] else if IsSecret(Urls(s, c), i) then STAR else s[i]
    decreases |s| - c
  {
    hide FindSeparator, HasScheme, UrlAt, Mask, IsSecret, RedactFrom, Urls;
    RedactStep(b, s, c);
    var separator := FindSeparator(s, c);
    var url := separator < |s| && HasScheme(s, separator);
    if url {
      RedactsTheUrls(Mask(b, UrlAt(s, separator)), s, UrlAt(s, separator).end);
    } else if separator < |s| {
      RedactsTheUrls(b, s, separator + 3);
    }
    forall i | 0 <= i < |s|
      ensures RedactFrom(b, c)[i] == if i < c then b[i] else if IsSecret(Urls(s, c), i) then STAR else s[i]
    {
      if url {
        SecretsSplit(s, c, i);
        if IsSecret(Urls(s, UrlAt(s, separator).end), i) {
          SecretsAreAhead(s, UrlAt(s, separator).end, i);
        }
      } else {
        NoUrlBeforeSeparator(s, c, i);
        if IsSecret(Urls(s, c), i) {
          SecretsAreAhead(s, c, i);
        }
      }
    }
  }

  /** The loop in place computes the reference. */
  lemma RedactsTheLine(s: seq<Byte>)
    ensures RedactFrom(s, 0) == Redacted(s)
  {
    RedactsTheUrls(s, s, 0);
  }

  /** A scan of the redacted line finds the URLs of the original line. */
  lemma {:induction false} UrlsSurviveRedaction(t: seq<Byte>, s: seq<Byte>, c: nat)
    requires c <= |s| == |t| && StopsAtCursor(t, s, c)
    requires forall i | c <= i < |s| :: t[i] == if IsSecret(Urls(s, c), i) then STAR else s[i]
    ensures Urls(t, c) == Urls(s, c)
    decreases |s| - c
  {
    hide FindSeparator, HasScheme, UrlAt, IsSecret;
    var separator := FindSeparator(s, c);
    forall j | c <= j < |s| && j < separator + 3 ensures t[j] == s[j] {
      if IsSecret(Urls(s, c), j) {
        SecretsAreAhead(s, c, j);
      }
    }
    SameSearch(t, s, c);
    if separator < |s| {
      if !HasScheme(s, separator) {
        UrlsSurviveRedaction(t, s, separator + 3);
      } else {
        var u := UrlAt(s, separator);
        forall i | separator <= i < |s| ensures i <= u.end ==> SameOrMasked(t, s, u, i) {
          SecretsSplit(s, c, i);
          if IsSecret(Urls(s, u.end), i) {
            SecretsAreAhead(s, u.end, i);
          }
        }
        SameUrl(t, s, separator);
        forall i | u.end <= i < |s| ensures t[i] == if IsSecret(Urls(s, u.end), i) then STAR else s[i] {
          SecretsSplit(s, c, i);
        }
        UrlsSurviveRedaction(t, s, u.end);
      }
    }
  }

  /** Redacting a second time changes nothing, and the second scan finds the same URLs. */
  lemma RedactionIsIdempotent(s: seq<Byte>)
    ensures Urls(Redacted(s), 0) == Urls(s, 0)
    ensures Redacted(Redacted(s)) == Redacted(s)
  {
    UrlsSurviveRedaction(Redacted(s), s, 0);
  }
}
