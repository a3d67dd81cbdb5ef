/**
 * `authenticateToken`: the bearer token is the second space-separated field of the
 * `Authorization` header; a missing token is answered 401, a token that does not verify under
 * `JWT_SECRET` 403, and a good one passes its payload on as `req.user`.
 */
module AuthMiddleware {
  import opened Js
  import opened Tokens

  /** `s.split(sep)`: the fields between separators, empty ones included. */
  function Split(s: string, sep: char): (r: seq<string>)
    ensures |r| >= 1
    ensures forall i, k :: 0 <= i < |r| && 0 <= k < |r[i]| ==> r[i][k] != sep
  {
    if s == [] then [[]]
    else
      var rest := Split(s[1..], sep);
      if s[0] == sep then [[]] + rest
      else [[s[0]] + rest[0]] + rest[1..]
  }

  /** The inverse of `Split`: the fields with one separator between neighbours. */
  function Join(fields: seq<string>, sep: char): string
    requires |fields| >= 1
  {
    if |fields| == 1 then fields[0] else fields[0] + [sep] + Join(fields[1..], sep)
  }

  /** Splitting loses nothing: joining the fields back gives the header. */
  lemma {:induction false} JoinSplit(s: string, sep: char)
    ensures Join(Split(s, sep), sep) == s
  {
    if s != [] {
      JoinSplit(s[1..], sep);
      var rest := Split(s[1..], sep);
      if s[0] == sep {
        assert s == [sep] + s[1..];
      } else if |rest| == 1 {
        assert s == [s[0]] + rest[0];
      } else {
        assert Join(rest, sep) == rest[0] + [sep] + Join(rest[1..], sep);
        assert s == ([s[0]] + rest[0]) + [sep] + Join(rest[1..], sep);
      }
    }
  }

  /** Splitting `a + sep + b` where `a` has no separator: `a` first, then the fields of `b`. */
  lemma {:induction false} SplitAfterField(a: string, b: string, sep: char)
    requires forall i :: 0 <= i < |a| ==> a[i] != sep
    ensures Split(a + [sep] + b, sep) == [a] + Split(b, sep)
  {
    if a != [] {
      assert (a + [sep] + b)[1..] == a[1..] + [sep] + b;
      SplitAfterField(a[1..], b, sep);
      assert [a[0]] + a[1..] == a;
    } else {
      assert [sep] + b == a + [sep] + b;
      assert ([sep] + b)[1..] == b;
    }
  }

  /** `authHeader && authHeader.split(" ")[1]`; a falsy header and a header with no space give no token. */
  function BearerToken(header: Option<string>): (r: Option<string>)
    ensures r.Some? ==> TruthyText(header) && NoSpace(r.value)
  {
    if !TruthyText(header) then None
    else
      var fields := Split(header.value, ' ');
      if |fields| >= 2 then Some(fields[1]) else None
  }

  /**
   * `Bearer <token>` gives back the token: the scheme ends at the first space and the token at the
   * next one, so the header `scheme + " " + token + rest` yields `token` whatever follows a further space.
   */
  lemma {:induction false} BearerTokenOf(scheme: string, token: string, rest: string)
    requires scheme != [] && NoSpace(scheme) && NoSpace(token)
    ensures BearerToken(Some(scheme + " " + token)) == Some(token)
    ensures BearerToken(Some(scheme + " " + token + " " + rest)) == Some(token)
  {
    SplitAfterField(scheme, token, ' ');
    SplitNoSeparator(token, ' ');
    SplitAfterField(scheme, token + " " + rest, ' ');
    SplitAfterField(token, rest, ' ');
    assert scheme + " " + token + " " + rest == scheme + [' '] + (token + [' '] + rest);
  }

  lemma {:induction false} SplitNoSeparator(s: string, sep: char)
    requires forall i :: 0 <= i < |s| ==> s[i] != sep
    ensures Split(s, sep) == [s]
  {
    if s != [] {
      SplitNoSeparator(s[1..], sep);
      assert [s[0]] + s[1..] == s;
    }
  }

  datatype Decision = Unauthorized | Forbidden | Next(user: Claims)

  function Authenticate(header: Option<string>, j: Jwt, secrets: Secrets, now: int): (r: Decision)
    ensures r == Unauthorized <==> !TruthyText(BearerToken(header))
    ensures r == Forbidden <==> TruthyText(BearerToken(header)) && j.verify(secrets.jwtSecret, BearerToken(header).value, now).None?
    ensures r.Next? ==> TruthyText(BearerToken(header)) && j.verify(secrets.jwtSecret, BearerToken(header).value, now) == Some(r.user)
  {
    var token := BearerToken(header);
    if !TruthyText(token) then Unauthorized
    else match j.verify(secrets.jwtSecret, token.value, now)
      case None => Forbidden
      case Some(decoded) => Next(decoded)
  }

  /** A live access token signed with `JWT_SECRET`, sent as `Bearer <token>`, passes with its own payload. */
  lemma {:induction false} AccessTokenPasses(j: Jwt, secrets: Secrets, c: Claims, exp: int, now: int)
    requires Sound(j) && now < exp
    ensures Authenticate(Some("Bearer " + j.sign(secrets.jwtSecret, c, exp)), j, secrets, now) == Next(c)
  {
    var t := j.sign(secrets.jwtSecret, c, exp);
    BearerTokenOf("Bearer", t, "");
    assert "Bearer" + " " + t == "Bearer " + t;
  }

  /** A token signed with any other secret is refused with 403. */
  lemma {:induction false} ForeignTokenRefused(j: Jwt, secrets: Secrets, k: string, c: Claims, exp: int, now: int)
    requires Sound(j) && k != secrets.jwtSecret
    ensures Authenticate(Some("Bearer " + j.sign(k, c, exp)), j, secrets, now) == Forbidden
  {
    var t := j.sign(k, c, exp);
    BearerTokenOf("Bearer", t, "");
    assert "Bearer" + " " + t == "Bearer " + t;
  }
}
