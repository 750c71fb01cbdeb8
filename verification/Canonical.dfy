/**
 The texts that are signed. The hexadecimal digest of a body stands in for the
 body: hashing is not part of the model.
 */
module Canonical {
  import opened Basics
  import opened Text

  datatype AuthFields = AuthFields(hotkey: string, timestampMs: nat, nonce: string, requestId: string, bodyHash: string)

  /** The text a miner signs for an executor, and the executor rebuilds. */
  function AuthText(f: AuthFields): string {
    "MINER_AUTH" + ":" + (f.hotkey + ":" + (Decimal(f.timestampMs) + ":" + (f.nonce + ":" + (f.requestId + ":" + f.bodyHash))))
  }

  /** The text has these six parts, in this order, with colons between them. */
  lemma AuthTextParts(f: AuthFields)
    ensures AuthText(f) ==
            Join(["MINER_AUTH", f.hotkey, Decimal(f.timestampMs), f.nonce, f.requestId, f.bodyHash], ':')
  {
    var parts := ["MINER_AUTH", f.hotkey, Decimal(f.timestampMs), f.nonce, f.requestId, f.bodyHash];
    assert parts[1..][1..] == parts[2..] && parts[2..][1..] == parts[3..] && parts[3..][1..] == parts[4..];
    assert parts[4..][1..] == [f.bodyHash];
    assert Join(parts[4..], ':') == f.requestId + ":" + f.bodyHash;
    assert Join(parts[3..], ':') == f.nonce + ":" + Join(parts[4..], ':');
    assert Join(parts[2..], ':') == Decimal(f.timestampMs) + ":" + Join(parts[3..], ':');
    assert Join(parts[1..], ':') == f.hotkey + ":" + Join(parts[2..], ':');
  }

  /** Hotkeys are in base 58 and digests in hexadecimal, neither of which has a colon. */
  predicate WellFormed(f: AuthFields) {
    Free(f.hotkey, ':') && Free(f.bodyHash, ':')
  }

  /** Hotkey, timestamp, and the text behind them, are determined by the whole. */
  lemma HeadDetermined(f: AuthFields, g: AuthFields)
    requires WellFormed(f) && WellFormed(g) && AuthText(f) == AuthText(g)
    ensures f.hotkey == g.hotkey && f.timestampMs == g.timestampMs
    ensures f.nonce + ":" + (f.requestId + ":" + f.bodyHash) == g.nonce + ":" + (g.requestId + ":" + g.bodyHash)
  {
    var (fn, gn) := (f.nonce + ":" + (f.requestId + ":" + f.bodyHash), g.nonce + ":" + (g.requestId + ":" + g.bodyHash));
    var (ft, gt) := (Decimal(f.timestampMs) + ":" + fn, Decimal(g.timestampMs) + ":" + gn);
    CutAtFirst("MINER_AUTH", "MINER_AUTH", f.hotkey + ":" + ft, g.hotkey + ":" + gt, ':');
    CutAtFirst(f.hotkey, g.hotkey, ft, gt, ':');
    DigitsAreFree(Decimal(f.timestampMs), ':');
    DigitsAreFree(Decimal(g.timestampMs), ':');
    CutAtFirst(Decimal(f.timestampMs), Decimal(g.timestampMs), fn, gn, ':');
    DecimalInjective(f.timestampMs, g.timestampMs);
  }

  // ----- Texts of messages that the executor accepts -----

  predicate IsHex(c: char) {
    '0' <= c <= '9' || 'a' <= c <= 'f' || 'A' <= c <= 'F'
  }

  predicate Hyphenated(s: string) {
    |s| == 36 && forall i :: 0 <= i < 36 ==> if i in {8, 13, 18, 23} then s[i] == '-' else IsHex(s[i])
  }

  const URN := "urn:uuid:"

  /** The spellings of a UUID that parse: plain digits, with hyphens, in braces, or as a URN. */
  predicate IsUuid(s: string) {
    || (|s| == 32 && forall i :: 0 <= i < 32 ==> IsHex(s[i]))
    || Hyphenated(s)
    || (|s| == 38 && s[0] == '{' && s[37] == '}' && Hyphenated(s[1..37]))
    || (|s| == 45 && s[..9] == URN && Hyphenated(s[9..]))
  }

  /** The URN is the only spelling with colons, and no spelling is as short as its first word. */
  lemma UuidColons(s: string)
    requires IsUuid(s)
    ensures |s| >= 32
    ensures Free(s, ':') || (|s| == 45 && s[..9] == URN && s[3] == ':')
  {
    if |s| == 38 {
      assert forall i :: 0 < i < 37 ==> s[i] == s[1..37][i - 1];
    } else if |s| == 45 {
      assert s[3] == s[..9][3];
    }
  }

  /** So a UUID at the front of a text ends where it ends, colons or not. */
  lemma UuidDetermined(m: string, n: string, x: string, y: string)
    requires IsUuid(m) && IsUuid(n) && m + ":" + x == n + ":" + y
    ensures m == n && x == y
  {
    UuidColons(m);
    UuidColons(n);
    var s := m + ":" + x;
    if Free(m, ':') && Free(n, ':') {
      CutAtFirst(m, n, x, y, ':');
    } else {
      assert s[3] == m[3] && s[3] == n[3];
      assert |m| == |n| == 45;
      assert m == s[..45] == n;
      assert x == s[46..] == y;
    }
  }

  /** No two messages with UUID nonces have the same text, whatever their request ids contain. */
  lemma AuthTextInjective(f: AuthFields, g: AuthFields)
    requires WellFormed(f) && WellFormed(g) && IsUuid(f.nonce) && IsUuid(g.nonce)
    requires AuthText(f) == AuthText(g)
    ensures f == g
  {
    HeadDetermined(f, g);
    UuidDetermined(f.nonce, g.nonce, f.requestId + ":" + f.bodyHash, g.requestId + ":" + g.bodyHash);
    CutAtLast(f.requestId, g.requestId, f.bodyHash, g.bodyHash, ':');
  }

  // ----- The builder on its own -----

  /** No other fields, whatever their nonce, have the same text. */
  ghost predicate Unambiguous(f: AuthFields) {
    forall g :: WellFormed(g) && AuthText(g) == AuthText(f) ==> g == f
  }

  lemma PiecesOfTail(f: AuthFields)
    ensures Split(f.nonce + ":" + (f.requestId + ":" + f.bodyHash), ':')
            == Split(f.nonce, ':') + (Split(f.requestId, ':') + Split(f.bodyHash, ':'))
  {
    SplitConcat(f.nonce, f.requestId + ":" + f.bodyHash, ':');
    SplitConcat(f.requestId, f.bodyHash, ':');
  }

  /** Without colons in nonce and request id nothing else has the same text. */
  lemma ColonFreeInjective(f: AuthFields, g: AuthFields)
    requires WellFormed(f) && WellFormed(g) && Free(f.nonce, ':') && Free(f.requestId, ':')
    requires AuthText(f) == AuthText(g)
    ensures f == g
  {
    HeadDetermined(f, g);
    PiecesOfTail(f);
    PiecesOfTail(g);
    SplitFree(f.nonce, ':');
    SplitFree(f.requestId, ':');
    SplitFree(f.bodyHash, ':');
    OnePieceIsFree(g.nonce, ':');
    OnePieceIsFree(g.requestId, ':');
    CutAtFirst(f.nonce, g.nonce, f.requestId + ":" + f.bodyHash, g.requestId + ":" + g.bodyHash, ':');
    CutAtFirst(f.requestId, g.requestId, f.bodyHash, g.bodyHash, ':');
  }

  /** A colon in the nonce or the request id lets part of one move into the other. */
  lemma ColonIsAmbiguous(f: AuthFields)
    requires WellFormed(f) && !(Free(f.nonce, ':') && Free(f.requestId, ':'))
    ensures !Unambiguous(f)
  {
    if !Free(f.nonce, ':') {
      var a, b := CutSomewhere(f.nonce, ':');
      var g := f.(nonce := a, requestId := b + ":" + f.requestId);
      assert f.nonce + ":" + (f.requestId + ":" + f.bodyHash) == g.nonce + ":" + (g.requestId + ":" + g.bodyHash);
      assert AuthText(g) == AuthText(f) && |g.nonce| < |f.nonce|;
    } else {
      var a, b := CutSomewhere(f.requestId, ':');
      var g := f.(nonce := f.nonce + ":" + a, requestId := b);
      assert f.nonce + ":" + (f.requestId + ":" + f.bodyHash) == g.nonce + ":" + (g.requestId + ":" + g.bodyHash);
      assert AuthText(g) == AuthText(f) && |g.nonce| > |f.nonce|;
    }
  }

  /** The builder alone, without the check of the nonce, is unambiguous exactly without colons in nonce and request id. */
  lemma UnambiguousExactly(f: AuthFields)
    requires WellFormed(f)
    ensures Unambiguous(f) <==> Free(f.nonce, ':') && Free(f.requestId, ':')
  {
    if Free(f.nonce, ':') && Free(f.requestId, ':') {
      forall g | WellFormed(g) && AuthText(g) == AuthText(f)
        ensures g == f
      {
        ColonFreeInjective(f, g);
      }
    } else {
      ColonIsAmbiguous(f);
    }
  }

  /** `timestamp` is the RFC 3339 text of the instant; `bodyHash` is None for a request without body. */
  datatype RequestFields =
    RequestFields(verb: string, path: string, timestamp: string, nonce: string, bodyHash: Option<string>)

  function Lines(f: RequestFields): seq<string> {
    [f.verb, f.path, f.timestamp, f.nonce] + if f.bodyHash.Some? then [f.bodyHash.value] else []
  }

  lemma LinesJoined(f: RequestFields)
    ensures Join(Lines(f), '\n') ==
            f.verb + "\n" + f.path + "\n" + f.timestamp + "\n" + f.nonce
            + if f.bodyHash.Some? then "\n" + f.bodyHash.value else ""
  {
    var lines := Lines(f);
    assert lines[1..][1..] == lines[2..] && lines[2..][1..] == lines[3..];
    assert f.bodyHash.Some? ==> lines[3..][1..] == [f.bodyHash.value];
    assert Join(lines[3..], '\n') == f.nonce + if f.bodyHash.Some? then "\n" + f.bodyHash.value else "";
    assert Join(lines[2..], '\n') == f.timestamp + "\n" + Join(lines[3..], '\n');
    assert Join(lines[1..], '\n') == f.path + "\n" + Join(lines[2..], '\n');
  }

  method RequestText(f: RequestFields) returns (canonical: string)
    ensures canonical == Join(Lines(f), '\n')
    ensures canonical == f.verb + "\n" + f.path + "\n" + f.timestamp + "\n" + f.nonce
                         + if f.bodyHash.Some? then "\n" + f.bodyHash.value else ""
  {
    canonical := "";
    canonical := canonical + f.verb;
    canonical := canonical + "\n";
    canonical := canonical + f.path;
    canonical := canonical + "\n";
    canonical := canonical + f.timestamp;
    canonical := canonical + "\n";
    canonical := canonical + f.nonce;
    if f.bodyHash.Some? {
      canonical := canonical + "\n";
      canonical := canonical + f.bodyHash.value;
    }
    LinesJoined(f);
  }

  /** Equal texts come from equal fields, down to whether there was a body. */
  lemma RequestTextInjective(f: RequestFields, g: RequestFields)
    requires AllFree(Lines(f), '\n') && AllFree(Lines(g), '\n')
    requires Join(Lines(f), '\n') == Join(Lines(g), '\n')
    ensures f == g
  {
    SplitJoin(Lines(f), '\n');
    SplitJoin(Lines(g), '\n');
    var (a, b) := (Lines(f), Lines(g));
    assert a == b;
    assert a[0] == b[0] && a[1] == b[1] && a[2] == b[2] && a[3] == b[3];
    if f.bodyHash.Some? {
      assert a[4] == b[4];
    }
  }
}
