/** Redis keys: every family is injective and the families never meet. */
module Keys {

  const PREFIX: string := "nexus:v1"

  datatype Window = Minute | Hour

  function DocumentKey(hash: string): string {
    PREFIX + ":rag:doc:" + hash
  }

  function SemanticCacheKey(hash: string): string {
    PREFIX + ":semantic_cache:" + hash
  }

  function RateLimitMinuteKey(user: string, bucket: nat): string {
    PREFIX + ":rate_limit:" + user + ":minute:" + Decimal(bucket)
  }

  function RateLimitHourKey(user: string, bucket: nat): string {
    PREFIX + ":rate_limit:" + user + ":hour:" + Decimal(bucket)
  }

  function RateLimitKey(w: Window, user: string, bucket: nat): string {
    if w.Minute? then RateLimitMinuteKey(user, bucket) else RateLimitHourKey(user, bucket)
  }

  function SessionMemoryKey(session: string): string {
    PREFIX + ":langchain:memory:session:" + session
  }

  function Digit(d: nat): char
    requires d < 10
  {
    '0' + d as char
  }

  function Decimal(n: nat): string {
    if n < 10 then [Digit(n)] else Decimal(n / 10) + [Digit(n % 10)]
  }

  // ---------------------------------------------------------------------------
  // Reading a rate-limit key back
  // ---------------------------------------------------------------------------

  lemma {:induction false} DecimalIsDigits(n: nat)
    ensures Decimal(n) != [] && forall c | c in Decimal(n) :: '0' <= c <= '9'
  {
    if n >= 10 {
      DecimalIsDigits(n / 10);
    }
  }

  lemma {:induction false} DecimalInjective(m: nat, n: nat)
    requires Decimal(m) == Decimal(n)
    ensures m == n
  {
    var a, b := Decimal(m), Decimal(n);
    DecimalIsDigits(m / 10);
    DecimalIsDigits(n / 10);
    assert a[|a| - 1] == Digit(m % 10) && b[|b| - 1] == Digit(n % 10);
    if m >= 10 && n >= 10 {
      assert a[..|a| - 1] == Decimal(m / 10) && b[..|b| - 1] == Decimal(n / 10);
      DecimalInjective(m / 10, n / 10);
    }
  }

  lemma CancelPrefix(p: string, a: string, b: string)
    requires p + a == p + b
    ensures a == b
  {
    assert a == (p + a)[|p|..] && b == (p + b)[|p|..];
  }

  lemma CancelSuffix(a: string, b: string, s: string)
    requires a + s == b + s
    ensures a == b
  {
    assert a == (a + s)[..|a|] && b == (b + s)[..|b|];
  }

  /** The text after the last colon is determined by the whole. */
  lemma SplitAtLastColon(a: string, x: string, b: string, y: string)
    requires ':' !in x && ':' !in y
    requires a + ":" + x == b + ":" + y
    ensures a == b && x == y
  {
    var s, t := a + ":" + x, b + ":" + y;
    assert s[|a|] == ':' && t[|b|] == ':';
    forall k | |a| < k < |s| ensures s[k] != ':' {
      assert s[k] == x[k - |a| - 1];
    }
    forall k | |b| < k < |t| ensures t[k] != ':' {
      assert t[k] == y[k - |b| - 1];
    }
    assert |a| == |b|;
    assert a == s[..|a|] && b == t[..|a|];
    assert x == s[|a| + 1..] && y == t[|a| + 1..];
  }

  function WindowName(w: Window): string {
    if w.Minute? then ":minute" else ":hour"
  }

  lemma RateLimitKeyParts(w: Window, user: string, bucket: nat)
    ensures RateLimitKey(w, user, bucket) == (PREFIX + ":rate_limit:") + (user + WindowName(w) + ":" + Decimal(bucket))
  {
  }

  /** A rate-limit key determines its user, window and bucket, whatever the user string contains. */
  lemma RateLimitKeyInjective(w: Window, u: string, b: nat, w': Window, u': string, b': nat)
    requires RateLimitKey(w, u, b) == RateLimitKey(w', u', b')
    ensures w == w' && u == u' && b == b'
  {
    RateLimitKeyParts(w, u, b);
    RateLimitKeyParts(w', u', b');
    CancelPrefix(PREFIX + ":rate_limit:",
                 u + WindowName(w) + ":" + Decimal(b), u' + WindowName(w') + ":" + Decimal(b'));
    DecimalIsDigits(b);
    DecimalIsDigits(b');
    var left, right := u + WindowName(w), u' + WindowName(w');
    SplitAtLastColon(left, Decimal(b), right, Decimal(b'));
    DecimalInjective(b, b');
    assert left[|left| - 1] == if w.Minute? then 'e' else 'r';
    assert right[|right| - 1] == if w'.Minute? then 'e' else 'r';
    CancelSuffix(u, u', WindowName(w));
  }

  lemma SemanticCacheKeyInjective(h: string, h': string)
    requires SemanticCacheKey(h) == SemanticCacheKey(h')
    ensures h == h'
  {
    CancelPrefix(PREFIX + ":semantic_cache:", h, h');
  }

  lemma SessionMemoryKeyInjective(s: string, s': string)
    requires SessionMemoryKey(s) == SessionMemoryKey(s')
    ensures s == s'
  {
    CancelPrefix(PREFIX + ":langchain:memory:session:", s, s');
  }

  lemma DocumentKeyInjective(h: string, h': string)
    requires DocumentKey(h) == DocumentKey(h')
    ensures h == h'
  {
    CancelPrefix(PREFIX + ":rag:doc:", h, h');
  }

  /** Keys of different families are different keys: the characters after "nexus:v1:" tell. */
  lemma FamiliesDisjoint(w: Window, user: string, bucket: nat, cacheHash: string, session: string, docHash: string)
    ensures var keys := [RateLimitKey(w, user, bucket), SemanticCacheKey(cacheHash),
                         SessionMemoryKey(session), DocumentKey(docHash)];
            forall i, j | 0 <= i < j < |keys| :: keys[i] != keys[j]
  {
    RateLimitKeyParts(w, user, bucket);
    var keys := [RateLimitKey(w, user, bucket), SemanticCacheKey(cacheHash),
                         SessionMemoryKey(session), DocumentKey(docHash)];
    assert keys[0][9] == 'r' && keys[0][11] == 't';
    assert keys[1][9] == 's';
    assert keys[2][9] == 'l';
    assert keys[3][9] == 'r' && keys[3][11] == 'g';
  }

  // ---------------------------------------------------------------------------
  // What the keys look like
  // ---------------------------------------------------------------------------

  /** The number a string of decimal digits denotes. */
  function Value(s: string): int {
    if s == "" then 0 else 10 * Value(s[..|s| - 1]) + (s[|s| - 1] as int - '0' as int)
  }

  /** A bucket is written as its decimal numeral, without leading zeros. */
  lemma {:induction false} DecimalDenotes(n: nat)
    ensures Value(Decimal(n)) == n
    ensures Decimal(n) != [] && (|Decimal(n)| > 1 ==> Decimal(n)[0] != '0')
  {
    if n >= 10 {
      DecimalDenotes(n / 10);
      var s := Decimal(n);
      assert s[..|s| - 1] == Decimal(n / 10);
      if |Decimal(n / 10)| == 1 {
        assert Decimal(n / 10)[0] != '0' by {
          assert n / 10 < 10 ==> Decimal(n / 10) == [Digit(n / 10)];
        }
      }
    } else {
      assert Decimal(n)[..0] == "";
    }
  }

  /** The keys in full. */
  lemma KeyShapes(session: string, hash: string)
    ensures DocumentKey(hash) == "nexus:v1:rag:doc:" + hash
    ensures SemanticCacheKey(hash) == "nexus:v1:semantic_cache:" + hash
    ensures SessionMemoryKey(session) == "nexus:v1:langchain:memory:session:" + session
  {
    assert PREFIX + ":rag:doc:" == "nexus:v1:rag:doc:";
    assert PREFIX + ":semantic_cache:" == "nexus:v1:semantic_cache:";
    assert PREFIX + ":langchain:memory:session:" == "nexus:v1:langchain:memory:session:";
  }

  lemma RateLimitKeyShapes(user: string, bucket: nat)
    ensures RateLimitMinuteKey(user, bucket) == "nexus:v1:rate_limit:" + user + ":minute:" + Decimal(bucket)
    ensures RateLimitHourKey(user, bucket) == "nexus:v1:rate_limit:" + user + ":hour:" + Decimal(bucket)
  {
    hide Decimal;
    assert PREFIX + ":rate_limit:" == "nexus:v1:rate_limit:";
  }
}
