/** Keyword and prefix search over the trouble-code term index: range scans against prefix tests.
    SQL queries are set comprehensions; text is bytes, compared as the database compares them. */
module DtcSearch {
  import opened Wrappers
  import opened Utf8

  type Text = seq<Byte>

  const MAXIMUM_QUERY_RESULTS: nat := 500

  /** The most tables that the database joins in one statement. */
  const MAXIMUM_JOINED_TABLES: nat := 64

  datatype Error = DatabaseInvalid

  // ---------------------------------------------------------------- prefix ranges

  /** Byte-wise lexicographic order, a proper prefix first. */
  predicate Less(a: Text, b: Text) {
    b != [] && (a == [] || a[0] < b[0] || (a[0] == b[0] && Less(a[1..], b[1..])))
  }

  /** Increments the last byte that can be, dropping what follows it. */
  function Bumped(prefix: Text): Option<Text> {
    if prefix == [] then None
    else
      var last := |prefix| - 1;
      if prefix[last] < 255 then Some(prefix[..last] + [prefix[last] + 1]) else Bumped(prefix[..last])
  }

  function UpperBound(prefix: Text): Text {
    match Bumped(prefix)
    case Some(bound) => bound
    case None => prefix + [255]
  }

  method PrefixUpperBound(prefix: Text) returns (bound: Text)
    ensures bound == UpperBound(prefix)
  {
    var i := |prefix|;
    assert prefix[..i] == prefix;
    while i > 0
      invariant 0 <= i <= |prefix|
      invariant Bumped(prefix[..i]) == Bumped(prefix)
    {
      i := i - 1;
      assert prefix[..i + 1][..i] == prefix[..i];
      if prefix[i] < 255 {
        return prefix[..i] + [prefix[i] + 1];
      }
    }
    return prefix + [255];
  }

  predicate InRange(p: Text, s: Text) {
    !Less(s, p) && Less(s, UpperBound(p))
  }

  predicate HasRoom(p: Text) {
    exists i | 0 <= i < |p| :: p[i] < 255
  }

  lemma {:induction false} BumpedHead(p: Text)
    requires p != []
    ensures Bumped(p) == match Bumped(p[1..])
                         case Some(b) => Some([p[0]] + b)
                         case None => if p[0] < 255 then Some([p[0] + 1]) else None
  {
    var last := |p| - 1;
    if last > 0 {
      assert p[1..][..last - 1] == p[..last][1..];
      if p[last] == 255 {
        BumpedHead(p[..last]);
      } else {
        assert p[..last] + [p[last] + 1] == [p[0]] + (p[1..][..last - 1] + [p[last] + 1]);
      }
    } else {
      assert p[1..] == [];
      if p[0] < 255 {
        assert p[..0] + [p[0] + 1] == [p[0] + 1];
      }
    }
  }

  lemma {:induction false} BumpedExists(p: Text)
    ensures Bumped(p).Some? <==> HasRoom(p)
  {
    if p != [] {
      var last := |p| - 1;
      BumpedExists(p[..last]);
      if HasRoom(p) && p[last] == 255 {
        var i :| 0 <= i < |p| && p[i] < 255;
        assert p[..last][i] < 255;
      }
      if HasRoom(p[..last]) {
        var i :| 0 <= i < last && p[..last][i] < 255;
        assert p[i] < 255;
      }
    }
  }

  lemma PrefixHead(p: Text, s: Text)
    requires p != []
    ensures p <= s <==> s != [] && s[0] == p[0] && p[1..] <= s[1..]
  {
    if s != [] && s[0] == p[0] && p[1..] <= s[1..] {
      assert p == [p[0]] + p[1..] && s == [s[0]] + s[1..];
    }
    if p <= s {
      assert s[..|p|] == p && s[1..][..|p| - 1] == p[1..];
    }
  }

  /** The half-open range below the bumped prefix holds exactly the strings with that prefix. */
  lemma {:induction false} BumpedRange(p: Text, s: Text)
    requires Bumped(p).Some?
    ensures !Less(s, p) && Less(s, Bumped(p).value) <==> p <= s
  {
    BumpedHead(p);
    PrefixHead(p, s);
    if s != [] && s[0] == p[0] {
      if Bumped(p[1..]).Some? {
        BumpedRange(p[1..], s[1..]);
        assert ([p[0]] + Bumped(p[1..]).value)[1..] == Bumped(p[1..]).value;
      } else {
        BumpedExists(p[1..]);
        NotLessThanFull(p[1..], s[1..]);
      }
    }
  }

  /** Nothing with only 0xFF bytes to match sorts above them without extending them. */
  lemma {:induction false} NotLessThanFull(p: Text, s: Text)
    requires !HasRoom(p)
    ensures !Less(s, p) <==> p <= s
  {
    if p != [] {
      PrefixHead(p, s);
      assert p[0] == 255;
      if s != [] && s[0] == p[0] {
        assert forall i | 0 <= i < |p| - 1 :: p[1..][i] == p[i + 1];
        NotLessThanFull(p[1..], s[1..]);
      }
    }
  }

  lemma {:induction false} LessIrreflexive(s: Text)
    ensures !Less(s, s)
  {
    if s != [] {
      LessIrreflexive(s[1..]);
    }
  }

  /** The range scan is the prefix test for every string if and only if the prefix has a byte that
      can be incremented: the empty prefix and prefixes of 0xFF bytes alone miss their extensions. */
  lemma RangeIsPrefixExactly(p: Text)
    ensures HasRoom(p) <==> forall s :: InRange(p, s) <==> p <= s
  {
    BumpedExists(p);
    if HasRoom(p) {
      forall s
        ensures InRange(p, s) <==> p <= s
      {
        BumpedRange(p, s);
      }
    } else {
      var s := p + [255];
      LessIrreflexive(s);
      assert p <= s && !InRange(p, s);
    }
  }

  /** Among strings without the byte 0xFF, which never occurs in UTF-8, the range scan is the prefix
      test for every non-empty prefix whatever. */
  lemma RangeIsPrefixInUtf8(p: Text, s: Text)
    requires p != [] && 255 !in s
    ensures InRange(p, s) <==> p <= s
  {
    BumpedExists(p);
    if HasRoom(p) {
      BumpedRange(p, s);
    } else {
      NotLessThanFull(p, s);
      assert p[0] == 255;
    }
  }

  // ---------------------------------------------------------------- tokens

  predicate IsWordByte(b: Byte) {
    b >= 0x80 || 0x30 <= b <= 0x39 || 0x41 <= b <= 0x5A || 0x61 <= b <= 0x7A
  }

  function Lower(b: Byte): Byte {
    if 0x41 <= b <= 0x5A then b + 0x20 else b
  }

  function Lowered(t: Text): Text {
    seq(|t|, i requires 0 <= i < |t| => Lower(t[i]))
  }

  /** A longest stretch of word bytes. */
  predicate IsWord(t: Text, i: nat, j: nat) {
    && i < j <= |t|
    && (forall k | i <= k < j :: IsWordByte(t[k]))
    && (i == 0 || !IsWordByte(t[i - 1]))
    && (j == |t| || !IsWordByte(t[j]))
  }

  function Tokens(t: Text): set<Text> {
    set i, j | 0 <= i < j <= |t| && IsWord(t, i, j) :: Lowered(t[i..j])
  }

  /** One pass over the text; sorting and removing duplicates is what a set needs no more. */
  method NormalizedTokens(t: Text) returns (tokens: set<Text>)
    ensures tokens == Tokens(t)
  {
    tokens := {};
    var token: Text := [];
    ghost var start := 0;
    var k := 0;
    while k < |t|
      invariant 0 <= start <= k <= |t|
      invariant token == Lowered(t[start..k])
      invariant forall x | start <= x < k :: IsWordByte(t[x])
      invariant start == 0 || !IsWordByte(t[start - 1])
      invariant tokens == set i, j | 0 <= i < j < start && IsWord(t, i, j) :: Lowered(t[i..j])
    {
      if IsWordByte(t[k]) {
        token := token + [Lower(t[k])];
        assert t[start..k + 1] == t[start..k] + [t[k]];
      } else {
        WordsExtend(t, start, k, tokens);
        if token != [] {
          tokens := tokens + {token};
          token := [];
        }
        start := k + 1;
      }
      k := k + 1;
    }
    WordsExtend(t, start, k, tokens);
    if token != [] {
      tokens := tokens + {token};
    }
    assert tokens == Tokens(t);
  }

  lemma WordsExtend(t: Text, start: nat, k: nat, before: set<Text>)
    requires start <= k <= |t|
    requires forall x | start <= x < k :: IsWordByte(t[x])
    requires start == 0 || !IsWordByte(t[start - 1])
    requires k == |t| || !IsWordByte(t[k])
    requires before == set i, j | 0 <= i < j < start && IsWord(t, i, j) :: Lowered(t[i..j])
    ensures (set i, j | 0 <= i < j < k + 1 && IsWord(t, i, j) :: Lowered(t[i..j])) ==
            before + (if start < k then {Lowered(t[start..k])} else {})
  {
    forall i: nat, j: nat | i < j <= k && IsWord(t, i, j)
      ensures j < start || (i == start && j == k)
    {
      if j >= start && start > 0 {
        assert !IsWordByte(t[start - 1]);
      }
    }
    assert start < k ==> IsWord(t, start, k);
  }

  lemma TokensAvoid255(t: Text)
    requires 255 !in t
    ensures forall token | token in Tokens(t) :: 255 !in token && token != []
  {
  }

  // ---------------------------------------------------------------- search

  /** A database row: its code and the text that is indexed for it. */
  datatype Row = Row(code: Text, searchable: Text)

  function Index(rows: set<Row>): set<(Text, Text)> {
    set r, term | r in rows && term in Tokens(r.searchable) :: (term, r.code)
  }

  /** What the joined range scans select. */
  function Scanned(rows: set<Row>, query: set<Text>): set<Text> {
    set r | r in rows && (forall q | q in query :: exists e | e in Index(rows) :: e.1 == r.code && InRange(q, e.0)) :: r.code
  }

  /** Codes of the rows where every query token begins some word of the row. */
  function Matching(rows: set<Row>, query: set<Text>): set<Text> {
    set r | r in rows && (forall q | q in query :: exists term | term in Tokens(r.searchable) :: q <= term) :: r.code
  }

  /** Imported rows have one row per code and valid UTF-8 text. */
  ghost predicate Imported(rows: set<Row>) {
    && (forall r, s | r in rows && s in rows && r.code == s.code :: r == s)
    && (forall r | r in rows :: ValidUtf8(r.searchable))
  }

  lemma ScanOfRow(rows: set<Row>, r: Row, q: Text)
    requires Imported(rows) && r in rows && q != []
    ensures (exists e | e in Index(rows) :: e.1 == r.code && InRange(q, e.0)) <==>
            exists term | term in Tokens(r.searchable) :: q <= term
  {
    NoByte255(r.searchable);
    TokensAvoid255(r.searchable);
    if exists e | e in Index(rows) :: e.1 == r.code && InRange(q, e.0) {
      var e :| e in Index(rows) && e.1 == r.code && InRange(q, e.0);
      var s, term :| s in rows && term in Tokens(s.searchable) && e == (term, s.code);
      assert s == r;
      RangeIsPrefixInUtf8(q, term);
    }
    if exists term | term in Tokens(r.searchable) :: q <= term {
      var term :| term in Tokens(r.searchable) && q <= term;
      RangeIsPrefixInUtf8(q, term);
      assert (term, r.code) in Index(rows);
    }
  }

  /** For every query whatever, the index scans select exactly the codes a naive scan would. */
  lemma SearchIsNaiveScan(rows: set<Row>, keywords: Text)
    requires Imported(rows)
    ensures Scanned(rows, Tokens(keywords)) == Matching(rows, Tokens(keywords))
  {
    forall r, q | r in rows && q in Tokens(keywords)
      ensures (exists e | e in Index(rows) :: e.1 == r.code && InRange(q, e.0)) <==>
              exists term | term in Tokens(r.searchable) :: q <= term
    {
      ScanOfRow(rows, r, q);
    }
  }

  // ---------------------------------------------------------------- ordering and limit

  lemma {:induction false} LessTotal(a: Text, b: Text)
    ensures Less(a, b) || Less(b, a) || a == b
  {
    if a != [] && b != [] && a[0] == b[0] {
      LessTotal(a[1..], b[1..]);
      assert a == [a[0]] + a[1..] && b == [b[0]] + b[1..];
    }
  }

  lemma {:induction false} LessTransitive(a: Text, b: Text, c: Text)
    requires Less(a, b) && Less(b, c)
    ensures Less(a, c)
  {
    if a != [] && a[0] == b[0] == c[0] {
      LessTransitive(a[1..], b[1..], c[1..]);
    }
  }

  /** `ORDER BY code LIMIT n`: the codes in ascending order, each once, cut after the limit. */
  ghost predicate IsSelection(result: seq<Text>, codes: set<Text>, limit: nat) {
    && (forall i, j | 0 <= i < j < |result| :: Less(result[i], result[j]))
    && (forall i | 0 <= i < |result| :: result[i] in codes)
    && (forall c | c in codes && c !in result :: |result| == limit && forall i | 0 <= i < |result| :: Less(result[i], c))
    && |result| <= limit
  }

  method Least(codes: set<Text>) returns (least: Text)
    requires codes != {}
    ensures least in codes && forall c | c in codes && c != least :: Less(least, c)
  {
    least :| least in codes;
    var rest := codes - {least};
    while rest != {}
      invariant rest <= codes && least in codes && least !in rest
      invariant forall c | c in codes - rest && c != least :: Less(least, c)
      decreases |rest|
    {
      var c :| c in rest;
      LessTotal(least, c);
      if Less(c, least) {
        forall d | d in codes - rest && d != least
          ensures Less(c, d)
        {
          LessTransitive(c, least, d);
        }
        least := c;
      }
      rest := rest - {c};
    }
  }

  method Select(codes: set<Text>, limit: nat) returns (result: seq<Text>)
    ensures IsSelection(result, codes, limit)
  {
    result := [];
    var rest := codes;
    while rest != {} && |result| < limit
      invariant rest <= codes && |result| <= limit
      invariant forall c :: c in codes <==> c in rest || c in result
      invariant forall i, j | 0 <= i < j < |result| :: Less(result[i], result[j])
      invariant forall i, c | 0 <= i < |result| && c in rest :: Less(result[i], c)
      decreases |rest|
    {
      var least := Least(rest);
      rest := rest - {least};
      result := result + [least];
    }
  }

  /** One table for the codes and one for each token are joined; more than the database joins is an
      error like a query without tokens. */
  method SearchKeywords(rows: set<Row>, keywords: Text, limit: nat) returns (r: Result<seq<Text>, Error>)
    requires Imported(rows)
    ensures r.Err? <==> Tokens(keywords) == {} || 1 + |Tokens(keywords)| > MAXIMUM_JOINED_TABLES
    ensures r.Ok? ==> IsSelection(r.value, Matching(rows, Tokens(keywords)), Min(limit, MAXIMUM_QUERY_RESULTS))
  {
    var tokens := NormalizedTokens(keywords);
    if tokens == {} {
      return Err(DatabaseInvalid);
    }
    if 1 + |tokens| > MAXIMUM_JOINED_TABLES {
      return Err(DatabaseInvalid);
    }
    SearchIsNaiveScan(rows, keywords);
    var result := Select(Scanned(rows, tokens), Min(limit, MAXIMUM_QUERY_RESULTS));
    return Ok(result);
  }

  // ---------------------------------------------------------------- lookup by code prefix

  predicate IsHexDigit(b: Byte) {
    0x30 <= b <= 0x39 || 0x41 <= b <= 0x46 || 0x61 <= b <= 0x66
  }

  predicate IsValidDtcPrefix(p: Text) {
    && 1 <= |p| <= 5
    && (p[0] == 0x50 || p[0] == 0x43 || p[0] == 0x42 || p[0] == 0x55)
    && (|p| >= 2 ==> 0x30 <= p[1] <= 0x33)
    && (forall i | 2 <= i < |p| :: IsHexDigit(p[i]))
  }

  predicate IsSpace(b: Byte) {
    b == 0x20 || 0x09 <= b <= 0x0D
  }

  function Trimmed(t: Text): Text {
    if t == [] then t
    else if IsSpace(t[0]) then Trimmed(t[1..])
    else if IsSpace(t[|t| - 1]) then Trimmed(t[..|t| - 1])
    else t
  }

  /** Trimming drops white space from both ends and nothing else. */
  lemma {:induction false} TrimmedMeaning(t: Text) returns (first: nat, last: nat)
    ensures first <= last <= |t| && Trimmed(t) == t[first..last]
    ensures forall i | 0 <= i < first || last <= i < |t| :: IsSpace(t[i])
    ensures first < last ==> !IsSpace(t[first]) && !IsSpace(t[last - 1])
  {
    if t == [] {
      return 0, 0;
    }
    if IsSpace(t[0]) {
      first, last := TrimmedMeaning(t[1..]);
      first, last := first + 1, last + 1;
      assert forall i | 0 < i < |t| :: t[i] == t[1..][i - 1];
    } else if IsSpace(t[|t| - 1]) {
      first, last := TrimmedMeaning(t[..|t| - 1]);
    } else {
      return 0, |t|;
    }
  }

  method Trim(t: Text) returns (r: Text)
    ensures r == Trimmed(t)
  {
    var first := 0;
    assert t[0..|t|] == t;
    while first < |t| && IsSpace(t[first])
      invariant 0 <= first <= |t|
      invariant Trimmed(t[first..|t|]) == Trimmed(t)
    {
      assert t[first..|t|][1..] == t[first + 1..|t|];
      first := first + 1;
    }
    var last := |t|;
    while last != first && IsSpace(t[last - 1])
      invariant first <= last <= |t|
      invariant first < |t| ==> !IsSpace(t[first])
      invariant Trimmed(t[first..last]) == Trimmed(t)
    {
      assert t[first..last][..last - first - 1] == t[first..last - 1];
      last := last - 1;
    }
    return t[first..last];
  }

  function Uppered(t: Text): Text {
    seq(|t|, i requires 0 <= i < |t| => if 0x61 <= t[i] <= 0x7A then t[i] - 0x20 else t[i])
  }

  /** Looks up the prefix trimmed and in upper case. */
  method LookupPrefix(codes: set<Text>, text: Text, limit: nat) returns (r: Result<seq<Text>, Error>)
    ensures var prefix := Uppered(Trimmed(text));
            && (r.Err? <==> !IsValidDtcPrefix(prefix))
            && (r.Ok? ==> IsSelection(r.value, (set c | c in codes && prefix <= c), Min(limit, MAXIMUM_QUERY_RESULTS)))
  {
    var trimmed := Trim(text);
    var prefix := Uppered(trimmed);
    if !IsValidDtcPrefix(prefix) {
      return Err(DatabaseInvalid);
    }
    var upper := PrefixUpperBound(prefix);
    assert HasRoom(prefix) by { assert prefix[0] < 255; }
    RangeIsPrefixExactly(prefix);
    var selected := set c | c in codes && !Less(c, prefix) && Less(c, upper);
    assert selected == set c | c in codes && prefix <= c by {
      forall c | c in codes
        ensures c in selected <==> prefix <= c
      {
        assert InRange(prefix, c) <==> prefix <= c;
      }
    }
    var result := Select(selected, Min(limit, MAXIMUM_QUERY_RESULTS));
    return Ok(result);
  }

  // ---------------------------------------------------------------- letter case

  /** Word bytes are letters, digits and every byte of a multi-byte character; lower case is taken of
      the letters A to Z alone. */
  lemma WordBytesExactly(b: Byte)
    ensures IsWordByte(b) <==> b >= 128 || '0' <= b as char <= '9' || 'A' <= b as char <= 'Z' || 'a' <= b as char <= 'z'
    ensures Lower(b) == if 'A' <= b as char <= 'Z' then b + ('a' as int - 'A' as int) else b
  {
  }

  /** The tokens of a text do not depend on the case of its letters. */
  lemma CaseIsIgnored(t: Text)
    ensures Tokens(Uppered(t)) == Tokens(t) == Tokens(Lowered(t))
  {
    SameWords(t, Uppered(t));
    SameWords(t, Lowered(t));
  }

  /** Two texts have the same tokens if byte by byte they agree but for case. */
  lemma SameWords(t: Text, u: Text)
    requires |t| == |u| && forall i | 0 <= i < |t| :: Lower(u[i]) == Lower(t[i]) && IsWordByte(u[i]) == IsWordByte(t[i])
    ensures Tokens(t) == Tokens(u)
  {
    forall i, j | 0 <= i < j <= |t|
      ensures IsWord(t, i, j) <==> IsWord(u, i, j)
      ensures Lowered(t[i..j]) == Lowered(u[i..j])
    {
    }
  }
}
