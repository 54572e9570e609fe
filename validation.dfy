/** The request-input helpers: the HTML escape applied to free text before
    it is stored or echoed, and the check on uploaded documents. */
module Validation {
  import opened Wrappers

  // ---------------------------------------------------------------------------
  // sanitizeInput
  // ---------------------------------------------------------------------------

  /** `s.replace(/t/g, replacement)` for a one-character pattern `t`. */
  function ReplaceAll(s: string, target: char, replacement: string): string
  {
    if s == [] then []
    else (if s[0] == target then replacement else [s[0]]) + ReplaceAll(s[1..], target, replacement)
  }

  /** `sanitizeInput`: five global replacements, applied in this order. */
  function SanitizeInput(input: string): string
  {
    ReplaceAll(
      ReplaceAll(
        ReplaceAll(
          ReplaceAll(
            ReplaceAll(input, '<', "&lt;"),
            '>', "&gt;"),
          '"', "&quot;"),
        '\'', "&#x27;"),
      '/', "&#x2F;")
  }

  /** The five characters the sanitiser rewrites. */
  predicate IsSpecial(c: char)
  {
    c == '<' || c == '>' || c == '"' || c == '\'' || c == '/'
  }

  predicate NoSpecials(s: string)
  {
    forall i :: 0 <= i < |s| ==> !IsSpecial(s[i])
  }

  /** The escape of one character: its entity when it is special, the
      character itself otherwise (`&` included). */
  function Entity(c: char): (e: string)
    ensures IsSpecial(c) ==> |e| >= 4 && e[0] == '&' && NoSpecials(e)
    ensures !IsSpecial(c) ==> e == [c]
  {
    match c
    case '<' => "&lt;"
    case '>' => "&gt;"
    case '"' => "&quot;"
    case '\'' => "&#x27;"
    case '/' => "&#x2F;"
    case _ => [c]
  }

  /** The reference definition: every character replaced by its escape,
      left to right. */
  function EscapeEach(s: string): (r: string)
    ensures NoSpecials(r)
    ensures |r| >= |s|
  {
    if s == [] then [] else Entity(s[0]) + EscapeEach(s[1..])
  }

  lemma {:induction false} ReplaceAllAppend(a: string, b: string, target: char, replacement: string)
    ensures ReplaceAll(a + b, target, replacement) == ReplaceAll(a, target, replacement) + ReplaceAll(b, target, replacement)
  {
    if a == [] {
      assert a + b == b;
    } else {
      assert (a + b)[1..] == a[1..] + b;
      ReplaceAllAppend(a[1..], b, target, replacement);
    }
  }

  lemma {:induction false} ReplaceAllAbsent(s: string, target: char, replacement: string)
    requires target !in s
    ensures ReplaceAll(s, target, replacement) == s
  {
    if s != [] {
      assert s == [s[0]] + s[1..];
      ReplaceAllAbsent(s[1..], target, replacement);
    }
  }

  lemma SanitizeAppend(a: string, b: string)
    ensures SanitizeInput(a + b) == SanitizeInput(a) + SanitizeInput(b)
  {
    var a1, b1 := ReplaceAll(a, '<', "&lt;"), ReplaceAll(b, '<', "&lt;");
    ReplaceAllAppend(a, b, '<', "&lt;");
    var a2, b2 := ReplaceAll(a1, '>', "&gt;"), ReplaceAll(b1, '>', "&gt;");
    ReplaceAllAppend(a1, b1, '>', "&gt;");
    var a3, b3 := ReplaceAll(a2, '"', "&quot;"), ReplaceAll(b2, '"', "&quot;");
    ReplaceAllAppend(a2, b2, '"', "&quot;");
    var a4, b4 := ReplaceAll(a3, '\'', "&#x27;"), ReplaceAll(b3, '\'', "&#x27;");
    ReplaceAllAppend(a3, b3, '\'', "&#x27;");
    ReplaceAllAppend(a4, b4, '/', "&#x2F;");
  }

  lemma ReplaceAllSingle(c: char, target: char, replacement: string)
    ensures ReplaceAll([c], target, replacement) == if c == target then replacement else [c]
  {
    assert [c][1..] == [];
  }

  /** A later replacement never touches what an earlier one produced. */
  lemma SanitizeChar(c: char)
    ensures SanitizeInput([c]) == Entity(c)
  {
    if c == '<' { SanitizeLt(c); }
    else if c == '>' { SanitizeGt(c); }
    else if c == '"' { SanitizeQuot(c); }
    else if c == '\'' { SanitizeApos(c); }
    else if c == '/' { SanitizeSlash(c); }
    else { SanitizePlain(c); }
  }

  lemma SanitizeLt(c: char)
    requires c == '<'
    ensures SanitizeInput([c]) == Entity(c)
  {
    ReplaceAllSingle(c, '<', "&lt;");
    var e := Entity(c);
    Untouched(e, '>', "&gt;");
    Untouched(e, '"', "&quot;");
    Untouched(e, '\'', "&#x27;");
    Untouched(e, '/', "&#x2F;");
  }

  lemma SanitizeGt(c: char)
    requires c == '>'
    ensures SanitizeInput([c]) == Entity(c)
  {
    ReplaceAllSingle(c, '<', "&lt;");
    ReplaceAllSingle(c, '>', "&gt;");
    var e := Entity(c);
    Untouched(e, '"', "&quot;");
    Untouched(e, '\'', "&#x27;");
    Untouched(e, '/', "&#x2F;");
  }

  lemma SanitizeQuot(c: char)
    requires c == '"'
    ensures SanitizeInput([c]) == Entity(c)
  {
    ReplaceAllSingle(c, '<', "&lt;");
    ReplaceAllSingle(c, '>', "&gt;");
    ReplaceAllSingle(c, '"', "&quot;");
    var e := Entity(c);
    Untouched(e, '\'', "&#x27;");
    Untouched(e, '/', "&#x2F;");
  }

  lemma SanitizeApos(c: char)
    requires c == '\''
    ensures SanitizeInput([c]) == Entity(c)
  {
    ReplaceAllSingle(c, '<', "&lt;");
    ReplaceAllSingle(c, '>', "&gt;");
    ReplaceAllSingle(c, '"', "&quot;");
    ReplaceAllSingle(c, '\'', "&#x27;");
    Untouched(Entity(c), '/', "&#x2F;");
  }

  lemma SanitizeSlash(c: char)
    requires c == '/'
    ensures SanitizeInput([c]) == Entity(c)
  {
    ReplaceAllSingle(c, '<', "&lt;");
    ReplaceAllSingle(c, '>', "&gt;");
    ReplaceAllSingle(c, '"', "&quot;");
    ReplaceAllSingle(c, '\'', "&#x27;");
    ReplaceAllSingle(c, '/', "&#x2F;");
  }

  lemma SanitizePlain(c: char)
    requires !IsSpecial(c)
    ensures SanitizeInput([c]) == Entity(c)
  {
    ReplaceAllSingle(c, '<', "&lt;");
    ReplaceAllSingle(c, '>', "&gt;");
    ReplaceAllSingle(c, '"', "&quot;");
    ReplaceAllSingle(c, '\'', "&#x27;");
    ReplaceAllSingle(c, '/', "&#x2F;");
  }

  /** Text without special characters passes a replacement of one of them
      unchanged. */
  lemma Untouched(e: string, target: char, replacement: string)
    requires NoSpecials(e) && IsSpecial(target)
    ensures ReplaceAll(e, target, replacement) == e
  {
    assert target !in e;
    ReplaceAllAbsent(e, target, replacement);
  }

  /** The chain of replacements escapes each character independently. */
  lemma {:induction false} SanitizeIsEscapeEach(s: string)
    ensures SanitizeInput(s) == EscapeEach(s)
  {
    if s != [] {
      assert s == [s[0]] + s[1..];
      SanitizeAppend([s[0]], s[1..]);
      SanitizeChar(s[0]);
      SanitizeIsEscapeEach(s[1..]);
    }
  }

  /** The output holds none of `<`, `>`, `"`, `'`, `/`. */
  lemma SanitizedHasNoSpecials(s: string)
    ensures NoSpecials(SanitizeInput(s))
  {
    SanitizeIsEscapeEach(s);
  }

  lemma {:induction false} EscapeEachWithoutSpecials(s: string)
    ensures EscapeEach(s) == s <==> NoSpecials(s)
    ensures |EscapeEach(s)| == |s| <==> NoSpecials(s)
  {
    if s != [] {
      EscapeEachWithoutSpecials(s[1..]);
      if NoSpecials(s) {
        assert NoSpecials(s[1..]) by {
          forall i | 0 <= i < |s[1..]| ensures !IsSpecial(s[1..][i]) {
            assert s[1..][i] == s[i + 1];
          }
        }
        assert s == [s[0]] + s[1..];
      } else if !IsSpecial(s[0]) {
        assert !NoSpecials(s[1..]) by {
          var i :| 0 <= i < |s| && IsSpecial(s[i]);
          assert s[1..][i - 1] == s[i];
        }
      }
    }
  }

  /** Sanitising twice is sanitising once. */
  lemma SanitizeIdempotent(s: string)
    ensures SanitizeInput(SanitizeInput(s)) == SanitizeInput(s)
  {
    SanitizeIsEscapeEach(s);
    SanitizeIsEscapeEach(EscapeEach(s));
    EscapeEachWithoutSpecials(EscapeEach(s));
  }

  /** The output is never shorter, and has the same length exactly when
      there was nothing to escape. */
  lemma SanitizeLength(s: string)
    ensures |SanitizeInput(s)| >= |s|
    ensures |SanitizeInput(s)| == |s| <==> NoSpecials(s)
    ensures SanitizeInput(s) == s <==> NoSpecials(s)
  {
    SanitizeIsEscapeEach(s);
    EscapeEachWithoutSpecials(s);
  }

  /** `&` is kept as it is, so a raw `<` and an already-escaped `&lt;` give
      the same output: the escape cannot be undone on every input. */
  lemma SanitizeNotInjective()
    ensures SanitizeInput("<") == SanitizeInput("&lt;")
  {
    SanitizeChar('<');
    ReplaceAllAbsent("&lt;", '<', "&lt;");
    ReplaceAllAbsent("&lt;", '>', "&gt;");
    ReplaceAllAbsent("&lt;", '"', "&quot;");
    ReplaceAllAbsent("&lt;", '\'', "&#x27;");
    ReplaceAllAbsent("&lt;", '/', "&#x2F;");
  }

  predicate StartsWith(t: string, p: string)
  {
    |p| <= |t| && t[..|p|] == p
  }

  /** Decoding of the five entities, left to right. */
  function Unescape(t: string): string
    decreases |t|
  {
    if t == [] then []
    else if StartsWith(t, "&lt;") then "<" + Unescape(t[4..])
    else if StartsWith(t, "&gt;") then ">" + Unescape(t[4..])
    else if StartsWith(t, "&quot;") then ['"'] + Unescape(t[6..])
    else if StartsWith(t, "&#x27;") then ['\''] + Unescape(t[6..])
    else if StartsWith(t, "&#x2F;") then "/" + Unescape(t[6..])
    else [t[0]] + Unescape(t[1..])
  }

  lemma UnescapeEntity(c: char, rest: string)
    requires IsSpecial(c)
    ensures Unescape(Entity(c) + rest) == [c] + Unescape(rest)
  {
    var e := Entity(c);
    var t := e + rest;
    assert t[..|e|] == e && t[|e|..] == rest;
    assert t[1] == e[1] && t[2] == e[2];
    if c == '<' {
    } else if c == '>' {
      assert t[1] == 'g';
    } else if c == '"' {
      assert t[1] == 'q';
    } else if c == '\'' {
      assert t[1] == '#' && t[4] == e[4] == '7';
      assert !StartsWith(t, "&#x2F;") by { assert t[..6][4] == '7'; }
    } else {
      assert t[1] == '#' && t[4] == e[4] == 'F';
      assert !StartsWith(t, "&#x27;") by { assert t[..6][4] == 'F'; }
    }
  }

  lemma UnescapePlain(c: char, rest: string)
    requires c != '&'
    ensures Unescape([c] + rest) == [c] + Unescape(rest)
  {
    var t := [c] + rest;
    assert t[0] == c && t[1..] == rest;
    NotAnEntity(t, "&lt;");
    NotAnEntity(t, "&gt;");
    NotAnEntity(t, "&quot;");
    NotAnEntity(t, "&#x27;");
    NotAnEntity(t, "&#x2F;");
  }

  /** Text that does not start with `&` starts with no entity. */
  lemma NotAnEntity(t: string, p: string)
    requires t != [] && t[0] != '&'
    requires p != [] && p[0] == '&'
    ensures !StartsWith(t, p)
  {
    if |p| <= |t| {
      assert t[..|p|][0] == t[0];
    }
  }

  /** On text without `&`, the escape can be undone. */
  lemma {:induction false} UnescapeSanitize(s: string)
    requires '&' !in s
    ensures Unescape(SanitizeInput(s)) == s
  {
    SanitizeIsEscapeEach(s);
    UnescapeEscapeEach(s);
  }

  lemma {:induction false} UnescapeEscapeEach(s: string)
    requires '&' !in s
    ensures Unescape(EscapeEach(s)) == s
  {
    if s != [] {
      var rest := EscapeEach(s[1..]);
      assert '&' !in s[1..];
      UnescapeEscapeEach(s[1..]);
      assert EscapeEach(s) == Entity(s[0]) + rest;
      if IsSpecial(s[0]) {
        UnescapeEntity(s[0], rest);
      } else {
        assert s[0] in s && Entity(s[0]) == [s[0]];
        UnescapePlain(s[0], rest);
      }
      assert s == [s[0]] + s[1..];
    }
  }

  // ---------------------------------------------------------------------------
  // validateFileUpload
  // ---------------------------------------------------------------------------

  /** The two fields of an uploaded file the check looks at. */
  datatype UploadedFile = UploadedFile(mimetype: string, size: int)

  datatype UploadVerdict = UploadVerdict(valid: bool, error: Option<string>)

  const AllowedTypes: seq<string> := ["image/jpeg", "image/png", "image/jpg", "application/pdf"]

  /** 5 MiB. */
  const MaxSize: int := 5 * 1024 * 1024

  const InvalidTypeError: string := "Invalid file type. Only JPEG, PNG, and PDF allowed."
  const TooLargeError: string := "File too large. Maximum size is 5MB."

  /** `validateFileUpload`: the type allow-list first, then the size cap. */
  function ValidateFileUpload(file: UploadedFile): (v: UploadVerdict)
    ensures v.valid <==> file.mimetype in AllowedTypes && file.size <= MaxSize
    ensures v.valid <==> v.error.None?
    ensures file.mimetype !in AllowedTypes ==> v.error == Some(InvalidTypeError)
    ensures file.mimetype in AllowedTypes && file.size > MaxSize ==> v.error == Some(TooLargeError)
  {
    if file.mimetype !in AllowedTypes then UploadVerdict(false, Some(InvalidTypeError))
    else if file.size > MaxSize then UploadVerdict(false, Some(TooLargeError))
    else UploadVerdict(true, None)
  }

  /** The cap is inclusive: exactly 5 MiB passes, one byte more does not. */
  lemma SizeCapIsInclusive(mimetype: string)
    requires mimetype in AllowedTypes
    ensures ValidateFileUpload(UploadedFile(mimetype, 5242880)).valid
    ensures ValidateFileUpload(UploadedFile(mimetype, 5242881)).error == Some(TooLargeError)
  {
  }

  /** The type check wins: an oversized file of a refused type reports the
      type, whatever its size. */
  lemma TypeErrorFirst(file: UploadedFile)
    requires file.mimetype !in AllowedTypes
    ensures ValidateFileUpload(file).error == ValidateFileUpload(UploadedFile(file.mimetype, 0)).error
  {
  }
}
