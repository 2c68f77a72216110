/**
 * The password-reset page: whether the link it was opened with may be used
 * (a session, or a `type=recovery` parameter in the URL fragment), and the
 * form that checks the two password fields before asking for the change.
 */
module ResetPassword {
  import opened Wrappers
  import opened Text
  import opened Gates

  const Mismatch := "Die Passwörter stimmen nicht überein"
  const TooShort := "Das Passwort muss mindestens 6 Zeichen lang sein"
  const MinLength: nat := 6

  // ---------------------------------------------------------------------------
  // The form's checks

  /** The checks `handleResetPassword` makes, in order. */
  function PasswordChecks(password: string, confirmation: string): seq<Check<string>>
  {
    [ Check(password == confirmation, Mismatch),
      Check(Utf16Length(password) >= MinLength, TooShort) ]
  }

  /** The message the form shows before asking for the change, if any. */
  function ResetError(password: string, confirmation: string): (r: Option<string>)
    ensures r == FirstFailure(PasswordChecks(password, confirmation))
    ensures r == Some(Mismatch) <==> password != confirmation
    ensures r == Some(TooShort) <==> password == confirmation && Utf16Length(password) < MinLength
    ensures r.None? <==> password == confirmation && Utf16Length(password) >= MinLength
  {
    var checks := PasswordChecks(password, confirmation);
    if password != confirmation then
      FirstFailureAt(checks, 0);
      Some(Mismatch)
    else if Utf16Length(password) < MinLength then
      FirstFailureAt(checks, 1);
      Some(TooShort)
    else
      None
  }

  /** Matching passwords of six UTF-16 units pass; of five they do not. */
  lemma LengthBoundary(p: string, q: string)
    requires Utf16Length(p) == 6 && Utf16Length(q) == 5
    ensures ResetError(p, p).None?
    ensures ResetError(q, q) == Some(TooShort)
  {
  }

  // ---------------------------------------------------------------------------
  // The URL fragment

  /** `hash.substring(1)`: the fragment without its leading `#`. */
  function DropFirst(s: string): (r: string)
    ensures s != "" ==> [s[0]] + r == s
    ensures s == "" ==> r == ""
  {
    if s == "" then "" else s[1..]
  }

  /** `+` reads as a space in a query string. */
  function PlusToSpace(s: string): (r: string)
    ensures |r| == |s|
    ensures forall k :: 0 <= k < |s| ==> r[k] == if s[k] == '+' then ' ' else s[k]
    decreases |s|
  {
    if s == "" then "" else [if s[0] == '+' then ' ' else s[0]] + PlusToSpace(s[1..])
  }

  /** One `name=value` piece: split at its first `=`; a piece without one is
      a name with an empty value. */
  function ParsePair(piece: string): (string, string)
  {
    var parts := Split(piece, '=');
    (PlusToSpace(parts[0]), PlusToSpace(if |parts| == 1 then "" else Join(parts[1..], '=')))
  }

  /** The pairs of the `&`-separated pieces: empty pieces are skipped, the
      others read as name-value pairs, in order. */
  function ParsePieces(pieces: seq<string>): (r: seq<(string, string)>)
    ensures |r| <= |pieces|
    ensures (forall k :: 0 <= k < |pieces| ==> pieces[k] != "") ==>
              |r| == |pieces| && forall k :: 0 <= k < |pieces| ==> r[k] == ParsePair(pieces[k])
    decreases |pieces|
  {
    if pieces == [] then []
    else
      var head := if pieces[0] == "" then [] else [ParsePair(pieces[0])];
      var rest := ParsePieces(pieces[1..]);
      assert (forall k :: 0 <= k < |pieces| ==> pieces[k] != "") ==>
               |head| == 1 && forall k :: 1 <= k < |pieces| ==> rest[k - 1] == ParsePair(pieces[k]);
      head + rest
  }

  /** A string given to `URLSearchParams` loses one leading `?`. */
  function DropQuestionMark(query: string): (r: string)
    ensures query != "" && query[0] == '?' ==> "?" + r == query
    ensures query == "" || query[0] != '?' ==> r == query
  {
    if query != "" && query[0] == '?' then query[1..] else query
  }

  /** `new URLSearchParams(query)`. */
  function Pairs(query: string): seq<(string, string)>
  {
    ParsePieces(Split(DropQuestionMark(query), '&'))
  }

  /** Pair `k` is the first one called `name`. */
  predicate FirstNamed(pairs: seq<(string, string)>, name: string, k: int)
  {
    0 <= k < |pairs| && pairs[k].0 == name && forall j :: 0 <= j < k ==> pairs[j].0 != name
  }

  lemma FirstNamedUnique(pairs: seq<(string, string)>, name: string, k: int, k': int)
    requires FirstNamed(pairs, name, k) && FirstNamed(pairs, name, k')
    ensures k == k'
  {
  }

  /** The value of the first pair called `name`. */
  function Lookup(pairs: seq<(string, string)>, name: string): (r: Option<string>)
    ensures r.None? <==> forall k :: 0 <= k < |pairs| ==> pairs[k].0 != name
    ensures r.Some? ==> exists k :: FirstNamed(pairs, name, k) && pairs[k].1 == r.value
    decreases |pairs|
  {
    if pairs == [] then None
    else if pairs[0].0 == name then
      assert FirstNamed(pairs, name, 0);
      Some(pairs[0].1)
    else
      var r := Lookup(pairs[1..], name);
      assert r.Some? ==> exists k :: FirstNamed(pairs, name, k) && pairs[k].1 == r.value by {
        if r.Some? {
          var k :| FirstNamed(pairs[1..], name, k) && pairs[1..][k].1 == r.value;
          assert FirstNamed(pairs, name, k + 1);
        }
      }
      r
  }

  /** `get(name)`: the value of the first pair with that name. */
  function Get(query: string, name: string): Option<string>
  {
    Lookup(Pairs(query), name)
  }

  /** `new URLSearchParams(hash.substring(1)).get('type') === 'recovery'`. */
  predicate RecoveryFragment(hash: string)
  {
    Get(DropFirst(hash), "type") == Some("recovery")
  }

  /** `checkSession` marks the link usable if there is a session, or else if
      the fragment's `type` parameter is `recovery`. */
  predicate LinkValid(hasSession: bool, hash: string)
  {
    hasSession || RecoveryFragment(hash)
  }

  // A query string written from pairs reads back as those pairs.

  predicate Plain(s: string)
  {
    '&' !in s && '=' !in s && '+' !in s
  }

  function Piece(p: (string, string)): string
  {
    p.0 + "=" + p.1
  }

  function Pieces(pairs: seq<(string, string)>): (r: seq<string>)
    ensures |r| == |pairs|
    ensures forall k :: 0 <= k < |pairs| ==> r[k] == Piece(pairs[k])
    decreases |pairs|
  {
    if pairs == [] then [] else [Piece(pairs[0])] + Pieces(pairs[1..])
  }

  /** Pairs written as `name=value&name=value…`. */
  function Serialize(pairs: seq<(string, string)>): string
    requires |pairs| >= 1
  {
    Join(Pieces(pairs), '&')
  }

  /** Plain names and values, and a first name that does not start with the
      `?` the parser would drop. */
  predicate PlainPairs(pairs: seq<(string, string)>)
  {
    && (forall k :: 0 <= k < |pairs| ==> Plain(pairs[k].0) && Plain(pairs[k].1))
    && (|pairs| >= 1 && pairs[0].0 != "" ==> pairs[0].0[0] != '?')
  }

  /** A query written from pairs starts with the first name, or with `=`. */
  lemma {:induction false} SerializeStart(pairs: seq<(string, string)>)
    requires |pairs| >= 1
    ensures Serialize(pairs) != ""
    ensures Serialize(pairs)[0] == if pairs[0].0 == "" then '=' else pairs[0].0[0]
  {
    var pieces := Pieces(pairs);
    assert pieces[0] == pairs[0].0 + "=" + pairs[0].1;
    if |pieces| > 1 {
      assert Join(pieces, '&') == pieces[0] + (['&'] + Join(pieces[1..], '&'));
    }
  }

  lemma {:induction false} PlusToSpacePlain(s: string)
    requires '+' !in s
    ensures PlusToSpace(s) == s
  {
    assert forall k :: 0 <= k < |s| ==> PlusToSpace(s)[k] == s[k];
  }

  lemma ParsePairOfPiece(p: (string, string))
    requires Plain(p.0) && Plain(p.1)
    ensures ParsePair(Piece(p)) == p
  {
    assert Piece(p) == p.0 + ['='] + p.1;
    SplitAtFirstSeparator(p.0, p.1, '=');
    SplitWithoutSeparator(p.1, '=');
    assert Split(Piece(p), '=') == [p.0, p.1];
    assert Join([p.1], '=') == p.1;
    PlusToSpacePlain(p.0);
    PlusToSpacePlain(p.1);
  }

  lemma {:induction false} PairsOfSerialized(pairs: seq<(string, string)>)
    requires |pairs| >= 1 && PlainPairs(pairs)
    ensures Pairs(Serialize(pairs)) == pairs
  {
    var pieces := Pieces(pairs);
    SerializeStart(pairs);
    assert DropQuestionMark(Serialize(pairs)) == Serialize(pairs);
    forall k | 0 <= k < |pieces|
      ensures '&' !in pieces[k] && pieces[k] != ""
    {
      assert pieces[k] == pairs[k].0 + "=" + pairs[k].1;
      assert pieces[k][|pairs[k].0|] == '=';
    }
    SplitJoin(pieces, '&');
    forall k | 0 <= k < |pairs|
      ensures ParsePieces(pieces)[k] == pairs[k]
    {
      ParsePairOfPiece(pairs[k]);
    }
  }

  /** `get` of a query written from plain pairs finds the first pair with that name. */
  lemma GetOfSerialized(pairs: seq<(string, string)>, name: string, v: string)
    requires |pairs| >= 1 && PlainPairs(pairs)
    ensures Get(Serialize(pairs), name) == Some(v) <==> exists k :: FirstNamed(pairs, name, k) && pairs[k].1 == v
  {
    PairsOfSerialized(pairs);
    var found := Lookup(pairs, name);
    if found.Some? {
      var k :| FirstNamed(pairs, name, k) && pairs[k].1 == found.value;
      forall k' | FirstNamed(pairs, name, k')
        ensures k' == k
      {
        FirstNamedUnique(pairs, name, k, k');
      }
    }
  }

  /** A fragment written from plain pairs, with or without a `?` after the
      `#`, gives a usable link exactly when there is a session or its first
      `type` pair says `recovery`. */
  lemma RecoveryLinkIff(hasSession: bool, pairs: seq<(string, string)>)
    requires |pairs| >= 1 && PlainPairs(pairs)
    ensures LinkValid(hasSession, "#" + Serialize(pairs)) <==>
            hasSession || exists k :: FirstNamed(pairs, "type", k) && pairs[k].1 == "recovery"
    ensures LinkValid(hasSession, "#?" + Serialize(pairs)) <==>
            hasSession || exists k :: FirstNamed(pairs, "type", k) && pairs[k].1 == "recovery"
  {
    assert DropFirst("#" + Serialize(pairs)) == Serialize(pairs);
    assert DropFirst("#?" + Serialize(pairs)) == "?" + Serialize(pairs);
    assert DropQuestionMark("?" + Serialize(pairs)) == Serialize(pairs);
    GetOfSerialized(pairs, "type", "recovery");
  }

  /** A Supabase-style fragment `#?type=recovery` opens the form without a session. */
  lemma QuestionMarkFragmentIsValid()
    ensures LinkValid(false, "#?type=recovery")
  {
    var pairs := [("type", "recovery")];
    assert Piece(pairs[0]) == "type=recovery";
    assert Pieces(pairs) == ["type=recovery"];
    assert Serialize(pairs) == "type=recovery";
    assert FirstNamed(pairs, "type", 0);
    RecoveryLinkIff(false, pairs);
  }

  // ---------------------------------------------------------------------------
  // The page

  /** The three screens: the invalid-link notice, the success notice, the form. */
  datatype Screen = InvalidLink | Changed | Form

  class ResetForm {
    var password: string
    var passwordConfirm: string
    var loading: bool
    var error: Option<string>
    var success: bool
    var isValidToken: bool

    constructor()
      ensures password == "" && passwordConfirm == ""
      ensures !loading && error.None? && !success && !isValidToken
    {
      password := "";
      passwordConfirm := "";
      loading := false;
      error := None;
      success := false;
      isValidToken := false;
    }

    function Shown(): (s: Screen)
      reads this
      ensures s == InvalidLink <==> !isValidToken
      ensures s == Changed <==> isValidToken && success
    {
      if !isValidToken then InvalidLink else if success then Changed else Form
    }

    method SetPassword(value: string)
      modifies this
      ensures password == value
      ensures passwordConfirm == old(passwordConfirm) && loading == old(loading) && error == old(error)
      ensures success == old(success) && isValidToken == old(isValidToken)
    {
      password := value;
    }

    method SetPasswordConfirm(value: string)
      modifies this
      ensures passwordConfirm == value
      ensures password == old(password) && loading == old(loading) && error == old(error)
      ensures success == old(success) && isValidToken == old(isValidToken)
    {
      passwordConfirm := value;
    }

    /** `checkSession`: only ever turns the flag on. */
    method CheckSession(hasSession: bool, hash: string)
      modifies this
      ensures isValidToken == (old(isValidToken) || LinkValid(hasSession, hash))
      ensures password == old(password) && passwordConfirm == old(passwordConfirm)
      ensures loading == old(loading) && error == old(error) && success == old(success)
    {
      if hasSession {
        isValidToken := true;
      } else {
        var params := DropFirst(hash);
        if Get(params, "type") == Some("recovery") {
          isValidToken := true;
        }
      }
    }

    /** `handleResetPassword`. `updateError` is the error the password change
        reports, if it is asked for; `updateCalled` says whether it was, and
        `redirect` whether the move to the login page is scheduled. */
    method HandleReset(updateError: Option<string>) returns (updateCalled: bool, redirect: bool)
      modifies this
      ensures updateCalled <==> ResetError(old(password), old(passwordConfirm)).None?
      ensures error == if updateCalled then updateError else ResetError(old(password), old(passwordConfirm))
      ensures redirect <==> updateCalled && updateError.None?
      ensures success == (old(success) || redirect)
      ensures !loading
      ensures password == old(password) && passwordConfirm == old(passwordConfirm)
      ensures isValidToken == old(isValidToken)
    {
      loading := true;
      error := None;
      updateCalled, redirect := false, false;
      if password != passwordConfirm {
        error := Some(Mismatch);
        loading := false;
        return;
      }
      if Utf16Length(password) < MinLength {
        error := Some(TooShort);
        loading := false;
        return;
      }
      updateCalled := true;
      loading := false;
      if updateError.Some? {
        error := Some(updateError.value);
      } else {
        success := true;
        redirect := true;
      }
    }
  }
}
