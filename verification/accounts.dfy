/**
 User registration (app.py, register): the e-mail address is lower-cased and
 stripped of surrounding whitespace, and a user is created only when no stored
 user has that address. The password digest comes from a hashing function the
 model takes as a parameter.
 */
module Accounts {

  /** A registered user. */
  datatype User = User(name: string, email: string, passwordHash: string)

  /** The characters Python's `str.isspace` accepts, which `str.strip()` removes. */
  predicate IsSpace(c: char)
  {
    var n := c as int;
    || n == 0x20 || 0x09 <= n <= 0x0D || 0x1C <= n <= 0x1F || n == 0x85 || n == 0xA0
    || n == 0x1680 || 0x2000 <= n <= 0x200A || n == 0x2028 || n == 0x2029
    || n == 0x202F || n == 0x205F || n == 0x3000
  }

  predicate IsUpperAscii(c: char)
  {
    'A' <= c <= 'Z'
  }

  /** Lower-case of one character (ASCII letters only). */
  function LowerChar(c: char): (d: char)
    ensures !IsUpperAscii(d)
    ensures IsUpperAscii(c) ==> d as int == c as int + 32
    ensures !IsUpperAscii(c) ==> d == c
  {
    if IsUpperAscii(c) then (c as int + 32) as char else c
  }

  /** `str.lower()`, for ASCII letters; what each character becomes is LowerChar's contract. */
  function Lower(s: string): (r: string)
    ensures |r| == |s|
    ensures forall i :: 0 <= i < |s| ==> r[i] == LowerChar(s[i])
  {
    seq(|s|, i requires 0 <= i < |s| => LowerChar(s[i]))
  }

  /** The first index at or after `i` that does not hold whitespace (|s| if there is none). */
  function SkipSpaces(s: string, i: nat): (j: nat)
    requires i <= |s|
    decreases |s| - i
    ensures i <= j <= |s|
    ensures j < |s| ==> !IsSpace(s[j])
    ensures forall k :: i <= k < j ==> IsSpace(s[k])
  {
    if i < |s| && IsSpace(s[i]) then SkipSpaces(s, i + 1) else i
  }

  /** The end of `s[i..j]` once trailing whitespace is cut (i if it is all whitespace). */
  function SkipSpacesBack(s: string, i: nat, j: nat): (e: nat)
    requires i <= j <= |s|
    decreases j - i
    ensures i <= e <= j
    ensures e > i ==> !IsSpace(s[e - 1])
    ensures forall k :: e <= k < j ==> IsSpace(s[k])
  {
    if i < j && IsSpace(s[j - 1]) then SkipSpacesBack(s, i, j - 1) else j
  }

  /**
   `r` is `s` with its leading and trailing whitespace cut: a slice of `s`
   with only whitespace outside it, which neither starts nor ends with
   whitespace.
   */
  ghost predicate IsStripOf(r: string, s: string)
  {
    && (r != [] ==> !IsSpace(r[0]) && !IsSpace(r[|r| - 1]))
    && exists i, j :: 0 <= i <= j <= |s| && r == s[i..j]
         && (forall k :: 0 <= k < i ==> IsSpace(s[k]))
         && (forall k :: j <= k < |s| ==> IsSpace(s[k]))
  }

  /** `str.strip()`. */
  function Strip(s: string): (r: string)
    ensures |r| <= |s|
    ensures r != [] ==> !IsSpace(r[0]) && !IsSpace(r[|r| - 1])
  {
    var i := SkipSpaces(s, 0);
    s[i..SkipSpacesBack(s, i, |s|)]
  }

  /** `Strip` cuts exactly the surrounding whitespace. */
  lemma StripSpec(s: string)
    ensures IsStripOf(Strip(s), s)
  {
    var i := SkipSpaces(s, 0);
    var j := SkipSpacesBack(s, i, |s|);
    assert Strip(s) == s[i..j];
  }

  /** Stripping removes characters but never changes one. */
  lemma StripKeepsNoUpper(s: string)
    requires forall k :: 0 <= k < |s| ==> !IsUpperAscii(s[k])
    ensures forall k :: 0 <= k < |Strip(s)| ==> !IsUpperAscii(Strip(s)[k])
  {
    var i := SkipSpaces(s, 0);
    var r := s[i..SkipSpacesBack(s, i, |s|)];
    assert Strip(s) == r;
    assert forall k :: 0 <= k < |r| ==> r[k] == s[i + k];
  }

  /** An address as it is stored: no ASCII capitals and no surrounding whitespace. */
  predicate IsNormalizedEmail(e: string)
  {
    && (forall i :: 0 <= i < |e| ==> !IsUpperAscii(e[i]))
    && (e != [] ==> !IsSpace(e[0]) && !IsSpace(e[|e| - 1]))
  }

  /** `email.lower().strip()`. */
  function NormalizeEmail(email: string): (e: string)
    ensures IsNormalizedEmail(e)
    ensures |e| <= |email|
  {
    StripKeepsNoUpper(Lower(email));
    Strip(Lower(email))
  }

  /** A normalized address is its own normalization. */
  lemma NormalizedIsFixed(e: string)
    requires IsNormalizedEmail(e)
    ensures NormalizeEmail(e) == e
  {
    assert Lower(e) == e;
    assert SkipSpaces(e, 0) == 0;
    assert SkipSpacesBack(e, 0, |e|) == |e|;
    assert e[0..|e|] == e;
  }

  /** Normalizing twice is normalizing once. */
  lemma NormalizeIdempotent(email: string)
    ensures NormalizeEmail(NormalizeEmail(email)) == NormalizeEmail(email)
  {
    NormalizedIsFixed(NormalizeEmail(email));
  }

  /** "Test@x.com" and "test@x.com" are the same address once normalized. */
  lemma CaseCollides()
    ensures NormalizeEmail("Test@x.com") == NormalizeEmail("test@x.com") == "test@x.com"
  {
    var upper, lower := "Test@x.com", "test@x.com";
    assert Lower(upper) == lower by {
      forall i | 0 <= i < |lower|
        ensures Lower(upper)[i] == lower[i]
      {
      }
    }
    NormalizedIsFixed(lower);
  }

  /** True iff a stored user has exactly this address (`filter_by(email=...)`). */
  predicate EmailTaken(users: seq<User>, email: string)
  {
    exists i :: 0 <= i < |users| && users[i].email == email
  }

  /** No address is stored twice. */
  ghost predicate UniqueEmails(users: seq<User>)
  {
    forall i, j :: 0 <= i < j < |users| ==> users[i].email != users[j].email
  }

  /** Every stored address is normalized. */
  ghost predicate NormalizedEmails(users: seq<User>)
  {
    forall i :: 0 <= i < |users| ==> IsNormalizedEmail(users[i].email)
  }

  /**
   The user table after a registration: unchanged when the normalized address
   is taken, otherwise one user appended with the stripped name, the normalized
   address and the digest of the password.
   */
  function Registered(users: seq<User>, name: string, email: string, password: string,
                      hash: string -> string): (r: seq<User>)
    ensures |r| == |users| + (if EmailTaken(users, NormalizeEmail(email)) then 0 else 1)
    ensures r[..|users|] == users
    ensures |r| > |users| ==> r[|users|] == User(Strip(name), NormalizeEmail(email), hash(password))
    ensures EmailTaken(r, NormalizeEmail(email))
  {
    var e := NormalizeEmail(email);
    if EmailTaken(users, e) then users
    else
      var r := users + [User(Strip(name), e, hash(password))];
      assert r[|users|].email == e;
      r
  }

  /** Registration keeps stored addresses unique. */
  lemma RegisteredKeepsUnique(users: seq<User>, name: string, email: string, password: string,
                              hash: string -> string)
    requires UniqueEmails(users)
    ensures UniqueEmails(Registered(users, name, email, password, hash))
  {
    var r := Registered(users, name, email, password, hash);
    if |r| > |users| {
      forall i, j | 0 <= i < j < |r|
        ensures r[i].email != r[j].email
      {
        if j == |users| {
          assert r[i] == users[i];
        } else {
          assert r[i] == users[i] && r[j] == users[j];
        }
      }
    }
  }

  /** Registration stores only normalized addresses. */
  lemma RegisteredKeepsNormalized(users: seq<User>, name: string, email: string, password: string,
                                  hash: string -> string)
    requires NormalizedEmails(users)
    ensures NormalizedEmails(Registered(users, name, email, password, hash))
  {
    var r := Registered(users, name, email, password, hash);
    forall i | 0 <= i < |r|
      ensures IsNormalizedEmail(r[i].email)
    {
      if i < |users| {
        assert r[i] == users[i];
      }
    }
  }

  /**
   Registering a second time with an address that normalizes to the same one
   (in any case, with any surrounding spaces) creates nobody.
   */
  lemma SecondRegistrationRejected(users: seq<User>, name1: string, email1: string, password1: string,
                                   name2: string, email2: string, password2: string, hash: string -> string)
    requires NormalizeEmail(email1) == NormalizeEmail(email2)
    ensures var once := Registered(users, name1, email1, password1, hash);
      Registered(once, name2, email2, password2, hash) == once
  {
  }
}
