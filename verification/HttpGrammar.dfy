/** Names, values and URLs by the codes of their characters, and names in any case: what
    the tables of the parser have to mean. */
module HttpGrammar {
  import opened HttpBytes

  // ----- the grammar ----------------------------------------------------------------------

  /** A character of a token (section 3.2.6 of RFC 7230). */
  predicate IsTchar(c: char) {
    var n := c as int;
    || n == 33 || 35 <= n <= 39 || n == 42 || n == 43 || n == 45 || n == 46
    || 48 <= n <= 57 || 65 <= n <= 90 || 94 <= n <= 122 || n == 124 || n == 126
  }

  predicate IsToken(s: string) { s != "" && forall i :: 0 <= i < |s| ==> IsTchar(s[i]) }

  /** A character of a field value: visible, blank, tab, or above ASCII (section 3.2 of
      RFC 7230). */
  predicate IsFieldChar(c: char) { var n := c as int; n == 9 || 32 <= n <= 126 || 128 <= n }

  /** A field value without blanks before it. */
  predicate IsFieldValue(v: string) {
    v != "" && v[0] != ' ' && v[0] != '\t' && forall i :: 0 <= i < |v| ==> IsFieldChar(v[i])
  }

  /** A character of a URL, '?' and '#' aside: visible, and in ASCII. */
  predicate IsPathChar(c: char) { var n := c as int; n == 33 || n == 34 || 36 <= n <= 62 || 64 <= n <= 126 }

  /** A path, with a query or without: what follows the first character. */
  predicate IsPath(s: string) { forall i :: 0 <= i < |s| ==> IsPathChar(s[i]) || s[i] == '?' }

  // ----- any case ---------------------------------------------------------------------------

  /** The same letter as `w`, which is in lower case or no letter. */
  predicate SameLetter(c: char, w: char) { c == w || ('A' <= c <= 'Z' && c as int + 32 == w as int) }

  predicate InAnyCase(s: string, w: string) { |s| == |w| && forall i :: 0 <= i < |s| ==> SameLetter(s[i], w[i]) }

  predicate BeginsInAnyCase(s: string, w: string) { |w| <= |s| && InAnyCase(s[..|w|], w) }

  /** The words that the parser looks for: lower case, and '-'. */
  predicate IsWordChar(w: char) { 'a' <= w <= 'z' || w == '-' }

  predicate IsLowerWord(s: string) { forall i :: 0 <= i < |s| ==> IsWordChar(s[i]) }

  // ----- the tables -----------------------------------------------------------------------------

  /** The table of tokens accepts the characters of a token. */
  lemma TokensAreTchars(c: char)
    ensures Token(c) != '\0' <==> IsTchar(c)
  {
  }

  /** And it folds a letter to the same letter in lower case. */
  lemma TokenFolds(c: char, w: char)
    requires IsWordChar(w)
    ensures Token(c) == w <==> SameLetter(c, w)
  {
  }

  /** So does setting bit 5, in the characters of a value. */
  lemma LowerFolds(c: char, w: char)
    requires IsWordChar(w) && IsFieldChar(c)
    ensures Lower(c) == w <==> SameLetter(c, w)
  {
  }

  lemma HeaderCharsAreFieldChars(c: char)
    ensures IsHeaderChar(c) && c != CR && c != LF <==> IsFieldChar(c)
  {
  }

  lemma UrlCharsArePathChars(c: char)
    ensures IsUrlChar(c) <==> IsPathChar(c)
  {
  }

  /** The table `unhex`: hexadecimal digits in both cases stand for their values, and no
      other ASCII character for any. */
  lemma UnhexIsHexadecimal(d: nat, c: char)
    requires c as int < 128
    ensures d < 10 ==> Unhex((48 + d) as char) == d
    ensures 10 <= d < 16 ==> Unhex((55 + d) as char) == d == Unhex((87 + d) as char)
    ensures Unhex(c) != -1 <==> 48 <= c as int <= 57 || 65 <= c as int <= 70 || 97 <= c as int <= 102
  {
  }
}
