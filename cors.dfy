/**
 * The backend's CORS origin policy: `CORS_ORIGIN` is read as a
 * comma-separated allow-list, and the `origin` callback handed to the CORS
 * middleware admits or refuses each request's `Origin` header.
 */
module Cors {
  import opened Wrappers
  import opened Text

  /** `.map((o) => o.trim()).filter(Boolean)` over the pieces of the split. */
  function TrimNonEmpty(pieces: seq<string>): (r: seq<string>)
    ensures forall k :: 0 <= k < |r| ==> r[k] != "" && IsTrimmed(r[k])
    decreases |pieces|
  {
    if pieces == [] then []
    else
      var t := Trim(pieces[0]);
      var rest := TrimNonEmpty(pieces[1..]);
      if t == "" then rest
      else
        assert IsTrimmed(t);
        PrependKept(t, rest);
        [t] + rest
  }

  lemma PrependKept(t: string, rest: seq<string>)
    requires t != "" && IsTrimmed(t)
    requires forall k :: 0 <= k < |rest| ==> rest[k] != "" && IsTrimmed(rest[k])
    ensures forall k :: 0 <= k < |[t] + rest| ==> ([t] + rest)[k] != "" && IsTrimmed(([t] + rest)[k])
  {
  }

  /** Trimming cannot bring in a character that no piece holds. */
  lemma TrimNonEmptyLacks(pieces: seq<string>, c: char)
    requires forall k :: 0 <= k < |pieces| ==> c !in pieces[k]
    ensures forall k :: 0 <= k < |TrimNonEmpty(pieces)| ==> c !in TrimNonEmpty(pieces)[k]
  {
    var r := TrimNonEmpty(pieces);
    forall k | 0 <= k < |r| ensures c !in r[k] {
      TrimNonEmptyMembers(pieces, r[k]);
      var m :| 0 <= m < |pieces| && Trim(pieces[m]) == r[k];
      TrimLacks(pieces[m], c);
    }
  }

  /** One step of the clean-up: the first piece's trim, if non-empty, then the rest. */
  lemma TrimNonEmptyStep(pieces: seq<string>)
    requires pieces != []
    ensures TrimNonEmpty(pieces) ==
              if Trim(pieces[0]) == "" then TrimNonEmpty(pieces[1..])
              else [Trim(pieces[0])] + TrimNonEmpty(pieces[1..])
  {
  }

  /** Some piece trims to `o`. */
  predicate TrimsTo(pieces: seq<string>, o: string) {
    exists k :: 0 <= k < |pieces| && Trim(pieces[k]) == o
  }

  /** An entry survives exactly when it is the non-empty trim of some piece. */
  lemma {:induction false} TrimNonEmptyMembers(pieces: seq<string>, o: string)
    ensures o in TrimNonEmpty(pieces) <==> o != "" && TrimsTo(pieces, o)
    decreases |pieces|
  {
    if pieces != [] {
      var t, rest := Trim(pieces[0]), pieces[1..];
      TrimNonEmptyMembers(rest, o);
      TrimsToFirstOrRest(pieces, o);
      TrimNonEmptyStep(pieces);
    }
  }

  lemma TrimsToFirstOrRest(pieces: seq<string>, o: string)
    requires pieces != []
    ensures TrimsTo(pieces, o) <==> Trim(pieces[0]) == o || TrimsTo(pieces[1..], o)
  {
    if TrimsTo(pieces, o) {
      var k :| 0 <= k < |pieces| && Trim(pieces[k]) == o;
      if k > 0 {
        assert Trim(pieces[1..][k - 1]) == o;
      }
    }
    if TrimsTo(pieces[1..], o) {
      var k :| 0 <= k < |pieces[1..]| && Trim(pieces[1..][k]) == o;
      assert Trim(pieces[k + 1]) == o;
    }
  }

  /**
   * `allowedOrigins`: the empty list when the variable is unset or empty,
   * otherwise the comma-separated entries, each trimmed, the empty ones
   * dropped.
   */
  function AllowedOrigins(env: Option<string>): (r: seq<string>)
    ensures env.None? || env.value == "" ==> r == []
    ensures forall k :: 0 <= k < |r| ==> r[k] != "" && IsTrimmed(r[k]) && ',' !in r[k]
  {
    if env.None? || env.value == "" then []
    else
      var pieces := Split(env.value, ',');
      TrimNonEmptyLacks(pieces, ',');
      TrimNonEmpty(pieces)
  }

  /** What the callback passes on: `callback(null, true)` or `callback(new Error(...))`. */
  datatype Decision = Allow | Refuse(message: string)

  const NotAllowed := "Origin not allowed by CORS"

  /** The `origin` callback. `None` and "" both stand for a request without an origin. */
  function OriginDecision(origin: Option<string>, allowed: seq<string>): (d: Decision)
    ensures d.Refuse? ==> d.message == NotAllowed
  {
    if origin.None? || origin.value == "" then Allow
    else if |allowed| == 0 then Allow
    else if origin.value in allowed then Allow
    else Refuse(NotAllowed)
  }

  // ---------------------------------------------------------------------
  // Properties of the policy
  // ---------------------------------------------------------------------

  /** The entries of the list, stated on the split of the variable's value. */
  lemma AllowedOriginsMembers(env: string, o: string)
    requires env != ""
    ensures o in AllowedOrigins(Some(env)) <==> o != "" && TrimsTo(Split(env, ','), o)
  {
    var pieces := Split(env, ',');
    AllowedOriginsOfSet(env);
    TrimNonEmptyMembers(pieces, o);
  }

  /** A request without an origin (an app, curl) is always admitted. */
  lemma NoOriginAllowed(env: Option<string>)
    ensures OriginDecision(None, AllowedOrigins(env)) == Allow
    ensures OriginDecision(Some(""), AllowedOrigins(env)) == Allow
  {
  }

  /** With a non-empty allow-list an origin is admitted exactly when it equals an entry, character for character. */
  lemma ListedIffAllowed(origin: string, allowed: seq<string>)
    requires origin != "" && allowed != []
    ensures OriginDecision(Some(origin), allowed) == Allow <==> origin in allowed
  {
  }

  lemma {:induction false} BlankPiecesVanish(pieces: seq<string>)
    requires forall k :: 0 <= k < |pieces| ==> forall i :: 0 <= i < |pieces[k]| ==> IsWhitespace(pieces[k][i])
    ensures TrimNonEmpty(pieces) == []
    decreases |pieces|
  {
    if pieces != [] {
      TrimOfBlank(pieces[0]);
      BlankPiecesVanish(pieces[1..]);
    }
  }

  /** A value made only of commas and whitespace yields an empty list, so it admits every origin, as if unset. */
  lemma CommasAndSpacesMeanUnset(env: string, origin: Option<string>)
    requires forall i :: 0 <= i < |env| ==> env[i] == ',' || IsWhitespace(env[i])
    ensures AllowedOrigins(Some(env)) == []
    ensures OriginDecision(origin, AllowedOrigins(Some(env))) == Allow
  {
    if env != "" {
      var pieces := Split(env, ',');
      forall k, i | 0 <= k < |pieces| && 0 <= i < |pieces[k]|
        ensures IsWhitespace(pieces[k][i])
      {
        SplitPieceChars(env, ',', k, i);
      }
      BlankPiecesVanish(pieces);
    }
  }

  /** Every character of a piece of a split comes from the split string. */
  lemma SplitPieceChars(s: string, sep: char, k: nat, i: nat)
    requires k < |Split(s, sep)| && i < |Split(s, sep)[k]|
    ensures Split(s, sep)[k][i] in s
    decreases |s|
  {
    if s != [] {
      var rest := Split(s[1..], sep);
      if s[0] == sep {
        SplitPieceChars(s[1..], sep, k - 1, i);
      } else if k == 0 && i == 0 {
      } else if k == 0 {
        SplitPieceChars(s[1..], sep, 0, i - 1);
      } else {
        SplitPieceChars(s[1..], sep, k, i);
      }
    }
  }

  lemma {:induction false} TrimNonEmptyOfClean(parts: seq<string>)
    requires forall k :: 0 <= k < |parts| ==> parts[k] != "" && IsTrimmed(parts[k])
    ensures TrimNonEmpty(parts) == parts
    decreases |parts|
  {
    if parts != [] {
      TrimOfTrimmed(parts[0]);
      TrimNonEmptyOfClean(parts[1..]);
    }
  }

  /**
   * Reading back a written list: joining non-empty, trimmed, comma-free
   * origins with "," and parsing the result gives the same list, in order.
   */
  lemma AllowedOriginsOfJoin(origins: seq<string>)
    requires origins != []
    requires forall k :: 0 <= k < |origins| ==> origins[k] != "" && IsTrimmed(origins[k]) && ',' !in origins[k]
    ensures AllowedOrigins(Some(Join(origins, ','))) == origins
  {
    var env := Join(origins, ',');
    assert env != "" by {
      JoinStartsWithFirst(origins, ',');
    }
    AllowedOriginsOfSet(env);
    SplitJoin(origins, ',');
    TrimNonEmptyOfClean(origins);
  }

  /** A set, non-empty variable is split on commas and cleaned. */
  lemma AllowedOriginsOfSet(env: string)
    requires env != ""
    ensures AllowedOrigins(Some(env)) == TrimNonEmpty(Split(env, ','))
  {
  }

  lemma JoinStartsWithFirst(parts: seq<string>, sep: char)
    requires parts != []
    ensures |Join(parts, sep)| >= |parts[0]|
  {
  }

  /**
   * The policy end to end: with `CORS_ORIGIN` set to a joined list, a
   * request's origin is admitted exactly when it is absent or listed.
   */
  lemma AdmittedIffListed(origins: seq<string>, origin: string)
    requires origins != []
    requires forall k :: 0 <= k < |origins| ==> origins[k] != "" && IsTrimmed(origins[k]) && ',' !in origins[k]
    ensures OriginDecision(Some(origin), AllowedOrigins(Some(Join(origins, ',')))) == Allow <==>
              origin == "" || origin in origins
  {
    AllowedOriginsOfJoin(origins);
  }

  /** The match is exact: neither letter case nor surrounding spaces are forgiven. */
  lemma ExactMatchOnly()
    ensures OriginDecision(Some("HTTPS://APP.EXAMPLE"), ["https://app.example"]) == Refuse(NotAllowed)
    ensures OriginDecision(Some(" https://app.example"), ["https://app.example"]) == Refuse(NotAllowed)
    ensures OriginDecision(Some("https://app.example"), ["https://app.example"]) == Allow
  {
  }
}
