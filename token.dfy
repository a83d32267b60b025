/** Reading the bearer token out of the `Authorization` header
    (src/utils/token.ts). The header is split on every single space and the
    second piece is the token; `jwt.decode` is a parameter, and neither helper
    checks a signature. */
module Token {
  import opened Common

  /** The position of the first `c` in `s`. */
  function IndexOf(s: string, c: char): (i: nat)
    requires c in s
    ensures i < |s| && s[i] == c
    ensures forall m | 0 <= m < i :: s[m] != c
  {
    if s[0] == c then 0 else IndexOf(s[1..], c) + 1
  }

  /** The pieces glued back together with the separator between them. */
  function Join(parts: seq<string>, sep: char): string
  {
    if parts == [] then ""
    else if |parts| == 1 then parts[0]
    else parts[0] + [sep] + Join(parts[1..], sep)
  }

  /** JavaScript's `s.split(sep)` for a one-character separator: at least one
      piece, no piece holds the separator, and joining the pieces with the
      separator gives `s` back. */
  function Split(s: string, sep: char): (parts: seq<string>)
    ensures |parts| >= 1
    ensures forall i | 0 <= i < |parts| :: sep !in parts[i]
    ensures Join(parts, sep) == s
    decreases |s|
  {
    if sep !in s then [s]
    else
      var i := IndexOf(s, sep);
      var rest := Split(s[i + 1..], sep);
      var parts := [s[..i]] + rest;
      assert parts[1..] == rest;
      assert s == s[..i] + [sep] + s[i + 1..];
      parts
  }

  /** `header.split(" ")[1]`: missing (undefined) exactly when the header has
      no space; otherwise the text after the first space up to the next space
      or the end. */
  function SecondField(header: string): (r: Option<string>)
    ensures r.None? <==> ' ' !in header
    ensures r.Some? ==>
      var rest := header[IndexOf(header, ' ') + 1..];
      && r.value <= rest && ' ' !in r.value
      && (|r.value| == |rest| || rest[|r.value|] == ' ')
  {
    var parts := Split(header, ' ');
    SecondPieceShape(header, ' ');
    if |parts| >= 2 then Some(parts[1]) else None
  }

  /** A string splits into two or more pieces exactly when it holds the
      separator, and then the second piece is the separator-free prefix of what
      follows the first separator. */
  lemma SecondPieceShape(s: string, sep: char)
    ensures |Split(s, sep)| >= 2 <==> sep in s
    ensures sep in s ==>
      var rest := s[IndexOf(s, sep) + 1..];
      var p := Split(s, sep)[1];
      p <= rest && (|p| == |rest| || rest[|p|] == sep)
  {
    if sep in s {
      SplitAtFirst(s, sep, IndexOf(s, sep));
      FirstPieceIsPrefix(s[IndexOf(s, sep) + 1..], sep);
    }
  }

  /** The first piece of a split is a prefix of the string that ends at the
      string's end or just before a separator. */
  lemma FirstPieceIsPrefix(s: string, sep: char)
    ensures var p := Split(s, sep)[0];
      p <= s && (|p| == |s| || s[|p|] == sep)
  {
    if sep in s {
      SplitAtFirst(s, sep, IndexOf(s, sep));
    }
  }

  /** Splitting at the first separator: the piece before it, then the pieces of
      the rest. */
  lemma SplitAtFirst(s: string, sep: char, i: nat)
    requires i < |s| && s[i] == sep
    requires forall m | 0 <= m < i :: s[m] != sep
    ensures Split(s, sep) == [s[..i]] + Split(s[i + 1..], sep)
  {
  }

  /** The first piece is everything up to the first separator, or the whole
      string when there is none. */
  lemma FirstPiece(s: string, sep: char, j: nat)
    requires j <= |s| && (j == |s| || s[j] == sep)
    requires forall m | 0 <= m < j :: s[m] != sep
    ensures Split(s, sep)[0] == s[..j]
  {
    if j < |s| {
      SplitAtFirst(s, sep, j);
    } else {
      assert s[..j] == s;
    }
  }

  /** The token is the text strictly between the first and the second space of
      the header (or its end). */
  lemma {:induction false} SecondFieldBetweenSpaces(header: string, i: nat, j: nat)
    requires i < |header| && header[i] == ' '
    requires forall m | 0 <= m < i :: header[m] != ' '
    requires i < j <= |header| && (j == |header| || header[j] == ' ')
    requires forall m | i < m < j :: header[m] != ' '
    ensures SecondField(header) == Some(header[i + 1..j])
  {
    var rest := header[i + 1..];
    var k := j - (i + 1);
    forall m | 0 <= m < k ensures rest[m] != ' ' {
      assert rest[m] == header[i + 1 + m];
    }
    FirstPiece(rest, ' ', k);
    assert rest[..k] == header[i + 1..j];
    SplitAtFirst(header, ' ', i);
    assert Split(header, ' ')[1] == Split(rest, ' ')[0];
  }

  /** A header without a space has no token. */
  lemma NoSpaceNoToken(header: string)
    requires ' ' !in header
    ensures SecondField(header).None?
  {
  }

  /** "Bearer abc" gives "abc". */
  lemma BearerTokenExample()
    ensures SecondField("Bearer abc") == Some("abc")
  {
    var h := "Bearer abc";
    SecondFieldBetweenSpaces(h, 6, 10);
    assert h[7..10] == "abc";
  }

  /** A double space after "Bearer" gives the empty string. */
  lemma DoubleSpaceExample()
    ensures SecondField("Bearer  abc") == Some("")
  {
    var h := "Bearer  abc";
    SecondFieldBetweenSpaces(h, 6, 7);
    assert h[7..7] == "";
  }

  /** "Bearer" alone gives nothing and "Bearer " the empty string. */
  lemma BareSchemeExamples()
    ensures SecondField("Bearer").None?
    ensures SecondField("Bearer ") == Some("")
  {
    var h := "Bearer ";
    assert forall m | 0 <= m < 6 :: "Bearer"[m] != ' ';
    NoSpaceNoToken("Bearer");
    SecondFieldBetweenSpaces(h, 6, 7);
    assert h[7..7] == "";
  }

  /** `jwt.decode(token)`: the oracle on a present token; a missing token
      decodes to null. */
  function DecodeToken<T>(token: Option<string>, decode: string -> Option<T>): Option<T>
  {
    match token
    case None => None
    case Some(t) => decode(t)
  }

  /** `decodeVerifiedTokenPayload`: the non-null assertion on the header is
      what it demands of its callers. */
  function DecodeVerifiedTokenPayload<T>(header: Option<string>, decode: string -> Option<T>): (r: Option<T>)
    requires header.Some?
    ensures SecondField(header.value).None? ==> r.None?
    ensures SecondField(header.value).Some? ==> r == decode(SecondField(header.value).value)
  {
    DecodeToken(SecondField(header.value), decode)
  }

  /** `decodeUnsafeTokenPayload`: nothing when the header is absent or empty,
      otherwise the same decoding of the same piece. */
  function DecodeUnsafeTokenPayload<T>(header: Option<string>, decode: string -> Option<T>): (r: Option<T>)
    ensures header.None? ==> r.None?
    ensures header.Some? && SecondField(header.value).None? ==> r.None?
    ensures header.Some? && SecondField(header.value).Some? ==> r == decode(SecondField(header.value).value)
  {
    if header.None? || header.value == "" then None
    else DecodeToken(SecondField(header.value), decode)
  }

  /** When the header is present the two helpers return the same thing. */
  lemma DecodersAgree<T>(header: Option<string>, decode: string -> Option<T>)
    requires header.Some?
    ensures DecodeUnsafeTokenPayload(header, decode) == DecodeVerifiedTokenPayload(header, decode)
  {
    if header.value == "" {
      NoSpaceNoToken(header.value);
    }
  }
}
