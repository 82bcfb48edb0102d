/** Character classes, method names and protocol constants of
    include/Crow/include/crow/http_parser_merged.h. A byte is a `char` below 256. */
module HttpBytes {

  const CR: char := '\r'
  const LF: char := '\n'

  const MAX_HEADER_SIZE: nat := 80 * 1024
  const ULLONG_MAX: nat := 0xFFFF_FFFF_FFFF_FFFF

  /** `CROW_LOWER`: the byte with bit 5 set. */
  function Lower(c: char): char {
    if c as int < 256 && (c as int / 32) % 2 == 0 then (c as int + 32) as char else c
  }

  predicate IsAlpha(c: char) { 'a' <= Lower(c) <= 'z' }

  predicate IsNum(c: char) { '0' <= c <= '9' }

  predicate IsAlphanum(c: char) { IsAlpha(c) || IsNum(c) }

  predicate IsMark(c: char) { c in "-_.!~*'()" }

  predicate IsUserinfoChar(c: char) { IsAlphanum(c) || IsMark(c) || c in "%;:&=+$," }

  /** The table `tokens`: the lower-case byte of a token, NUL for all others. */
  function Token(c: char): char {
    if 'A' <= c <= 'Z' then (c as int + 32) as char
    else if 'a' <= c <= 'z' || IsNum(c) || c in "!#$%&'*+-.^_`|~" then c
    else '\0'
  }

  /** The table `normal_url_char`. */
  predicate IsUrlChar(c: char) { '!' <= c <= '~' && c != '#' && c != '?' }

  predicate IsHeaderChar(c: char) { c == CR || c == LF || c == '\t' || (c as int > 31 && c as int != 127) }

  /** The table `unhex`; its last 128 entries are zero because it is written short. */
  function Unhex(c: char): (v: int)
    ensures -1 <= v < 16
  {
    if '0' <= c <= '9' then c as int - '0' as int
    else if 'A' <= c <= 'F' then c as int - 'A' as int + 10
    else if 'a' <= c <= 'f' then c as int - 'a' as int + 10
    else if 128 <= c as int < 256 then 0
    else -1
  }

  /** The character of a NUL-terminated constant. */
  function At(s: string, i: nat): char {
    if i < |s| then s[i] else '\0'
  }

  // `HTTPMethod`, numbered as its enumerators are.

  const DELETE: nat := 0
  const GET: nat := 1
  const HEAD: nat := 2
  const POST: nat := 3
  const PUT: nat := 4
  const CONNECT: nat := 5
  const OPTIONS: nat := 6
  const TRACE: nat := 7
  const PATCH: nat := 8
  const PURGE: nat := 9
  const COPY: nat := 10
  const LOCK: nat := 11
  const MKCOL: nat := 12
  const MOVE: nat := 13
  const PROPFIND: nat := 14
  const PROPPATCH: nat := 15
  const SEARCH: nat := 16
  const UNLOCK: nat := 17
  const BIND: nat := 18
  const REBIND: nat := 19
  const UNBIND: nat := 20
  const ACL: nat := 21
  const REPORT: nat := 22
  const MKACTIVITY: nat := 23
  const CHECKOUT: nat := 24
  const MERGE: nat := 25
  const MSEARCH: nat := 26
  const NOTIFY: nat := 27
  const SUBSCRIBE: nat := 28
  const UNSUBSCRIBE: nat := 29
  const MKCALENDAR: nat := 30
  const LINK: nat := 31
  const UNLINK: nat := 32
  const SOURCE: nat := 33

  const METHOD_STRINGS: seq<string> := [
    "DELETE", "GET", "HEAD", "POST", "PUT", "CONNECT", "OPTIONS", "TRACE", "PATCH", "PURGE",
    "COPY", "LOCK", "MKCOL", "MOVE", "PROPFIND", "PROPPATCH", "SEARCH", "UNLOCK", "BIND", "REBIND",
    "UNBIND", "ACL", "REPORT", "MKACTIVITY", "CHECKOUT", "MERGE", "M-SEARCH", "NOTIFY", "SUBSCRIBE", "UNSUBSCRIBE",
    "MKCALENDAR", "LINK", "UNLINK", "SOURCE"]

  function MethodName(m: nat): string {
    if m < |METHOD_STRINGS| then METHOD_STRINGS[m] else "invalid"
  }
}
