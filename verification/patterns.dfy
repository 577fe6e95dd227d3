/** The regular expressions of the card parser (src/services/ocrService.ts),
    each written as a small scanner rather than as a general regex engine.

    Every pattern is matched the way `String.prototype.match` without the `g`
    flag does it: the start positions are tried from left to right
    (`FindFirst`), and at one start position the greedy quantifiers take as
    much as they can and give characters back one at a time until the rest of
    the pattern fits. The functions ending in `At` compute the outcome of that
    backtracking at one start position directly. */
module Patterns {
  import opened Types
  import opened Text

  datatype Hit<T> = Hit(pos: nat, val: T)

  /** Leftmost-match search: the first start position `p >= from`, up to and
      including `|s|`, at which `at` succeeds. */
  function FindFirst<T>(s: string, from: nat, at: (string, nat) -> Option<T>): (r: Option<Hit<T>>)
    ensures r.Some? ==> from <= r.value.pos <= |s| && at(s, r.value.pos) == Some(r.value.val)
    ensures r.Some? ==> forall p :: from <= p < r.value.pos ==> at(s, p).None?
    ensures r.None? <==> forall p :: from <= p <= |s| ==> at(s, p).None?
    decreases |s| + 1 - from
  {
    if from > |s| then None
    else match at(s, from)
      case Some(v) => Some(Hit(from, v))
      case None => FindFirst(s, from + 1, at)
  }

  /** The end of the maximal run of `P`-characters that starts at `i`. */
  function RunEnd(s: string, i: nat, P: char -> bool): (j: nat)
    requires i <= |s|
    ensures i <= j <= |s|
    ensures forall k :: i <= k < j ==> P(s[k])
    ensures j == |s| || !P(s[j])
    decreases |s| - i
  {
    if i < |s| && P(s[i]) then RunEnd(s, i + 1, P) else i
  }

  // ---------------------------------------------------------------------
  // Telephone and fax: /(?:Tel|TEL|電話|Mobile|携帯)[:：\s]*([0-9\-\+\(\)\s]+)/i
  // and /(?:Fax|FAX)[:：\s]*([0-9\-\+\(\)\s]+)/i
  // ---------------------------------------------------------------------

  const PhoneLabels: seq<string> := ["Tel", "TEL", "電話", "Mobile", "携帯"]
  const FaxLabels: seq<string> := ["Fax", "FAX"]

  /** `[:：\s]` */
  predicate IsSeparator(c: char)
  {
    c == ':' || c == '：' || IsSpace(c)
  }

  /** `[0-9\-\+\(\)\s]` */
  predicate IsNumberChar(c: char)
  {
    IsDigit(c) || c == '-' || c == '+' || c == '(' || c == ')' || IsSpace(c)
  }

  /** Under the `i` flag (without `u`) only ASCII letters fold, so the label
      matches when the two spellings agree after ASCII lower-casing. */
  predicate LabelAt(s: string, p: nat, word: string)
  {
    p + |word| <= |s| && Lower(s[p..p + |word|]) == Lower(word)
  }

  /** The end of the first alternative among `labels` that matches at `p`. */
  function LabelEnd(s: string, p: nat, labels: seq<string>): (r: Option<nat>)
    ensures r.Some? ==> p <= r.value <= |s|
    ensures r.Some? <==> exists k :: 0 <= k < |labels| && LabelAt(s, p, labels[k])
  {
    if labels == [] then None
    else if LabelAt(s, p, labels[0]) then Some(p + |labels[0]|)
    else
      var r := LabelEnd(s, p, labels[1..]);
      assert forall k :: 1 <= k < |labels| ==> labels[k] == labels[1..][k - 1];
      r
  }

  /** The largest `j` in `[lo, hi]`, below `|s|`, holding a number character. */
  function LastNumberCharIn(s: string, lo: nat, hi: nat): (r: Option<nat>)
    requires lo <= hi <= |s|
    ensures r.Some? ==> lo <= r.value <= hi && r.value < |s| && IsNumberChar(s[r.value])
    ensures r.Some? ==> forall j :: r.value < j <= hi && j < |s| ==> !IsNumberChar(s[j])
    ensures r.None? ==> forall j :: lo <= j <= hi && j < |s| ==> !IsNumberChar(s[j])
    decreases hi - lo
  {
    if hi < |s| && IsNumberChar(s[hi]) then Some(hi)
    else if hi == lo then None
    else LastNumberCharIn(s, lo, hi - 1)
  }

  /** `[:：\s]*([0-9\-\+\(\)\s]+)` at `q`, group 1. The separator run is taken
      whole and handed back one character at a time until a number character
      follows; the number run is then as long as possible. Because white space
      belongs to both classes, a label followed by `": "` and then no digit
      captures the single space. */
  function NumberAfterLabel(s: string, q: nat): (r: Option<string>)
    requires q <= |s|
    ensures r.Some? ==> r.value != [] && forall i :: 0 <= i < |r.value| ==> IsNumberChar(r.value[i])
    ensures r.None? <==> forall j :: q <= j <= RunEnd(s, q, IsSeparator) && j < |s| ==> !IsNumberChar(s[j])
  {
    var e := RunEnd(s, q, IsSeparator);
    match LastNumberCharIn(s, q, e)
    case None => None
    case Some(j) => Some(s[j..RunEnd(s, j, IsNumberChar)])
  }

  function LabelledNumberAt(s: string, p: nat, labels: seq<string>): (r: Option<string>)
    ensures r.Some? ==> r.value != [] && forall i :: 0 <= i < |r.value| ==> IsNumberChar(r.value[i])
    ensures r.Some? ==> exists k :: 0 <= k < |labels| && LabelAt(s, p, labels[k])
  {
    match LabelEnd(s, p, labels)
    case None => None
    case Some(q) => NumberAfterLabel(s, q)
  }

  function PhoneAt(s: string, p: nat): Option<string>
  {
    LabelledNumberAt(s, p, PhoneLabels)
  }

  function FaxAt(s: string, p: nat): Option<string>
  {
    LabelledNumberAt(s, p, FaxLabels)
  }

  /** Group 1 of the telephone pattern: a non-empty run of number characters,
      found right after a telephone label. */
  function PhoneMatch(line: string): (r: Option<string>)
    ensures r.Some? ==> r.value != [] && forall i :: 0 <= i < |r.value| ==> IsNumberChar(r.value[i])
  {
    match FindFirst(line, 0, PhoneAt)
    case None => None
    case Some(h) => Some(h.val)
  }

  /** Group 1 of the fax pattern. */
  function FaxMatch(line: string): (r: Option<string>)
    ensures r.Some? ==> r.value != [] && forall i :: 0 <= i < |r.value| ==> IsNumberChar(r.value[i])
  {
    match FindFirst(line, 0, FaxAt)
    case None => None
    case Some(h) => Some(h.val)
  }

  // ---------------------------------------------------------------------
  // E-mail: /([a-zA-Z0-9._%+-]+@[a-zA-Z0-9.-]+\.[a-zA-Z]{2,})/
  // Website: /(https?:\/\/[^\s]+|www\.[^\s]+|[a-zA-Z0-9.-]+\.[a-zA-Z]{2,})/
  // ---------------------------------------------------------------------

  /** `[a-zA-Z0-9._%+-]` */
  predicate IsLocalChar(c: char)
  {
    IsAsciiLetter(c) || IsDigit(c) || c == '.' || c == '_' || c == '%' || c == '+' || c == '-'
  }

  /** `[a-zA-Z0-9.-]` */
  predicate IsDomainChar(c: char)
  {
    IsAsciiLetter(c) || IsDigit(c) || c == '.' || c == '-'
  }

  predicate IsNonSpace(c: char)
  {
    !IsSpace(c)
  }

  /** `\.[a-zA-Z]{2}` at `m`. */
  predicate TldDotAt(s: string, m: int)
  {
    0 <= m && m + 2 < |s| && s[m] == '.' && IsAsciiLetter(s[m + 1]) && IsAsciiLetter(s[m + 2])
  }

  /** `v` ends in a '.' followed by two or more ASCII letters, the dot at `m`. */
  predicate TldFrom(v: string, m: int)
  {
    0 <= m && m + 2 < |v| && v[m] == '.' && forall k :: m < k < |v| ==> IsAsciiLetter(v[k])
  }

  /** The largest `m` in `[lo, hi]` at which a top-level-domain dot sits. */
  function LastTldDotIn(s: string, lo: nat, hi: int): (r: Option<nat>)
    ensures r.Some? ==> lo <= r.value <= hi && TldDotAt(s, r.value)
    ensures r.Some? ==> forall m :: r.value < m <= hi ==> !TldDotAt(s, m)
    ensures r.None? ==> forall m :: lo <= m <= hi ==> !TldDotAt(s, m)
    decreases hi - lo
  {
    if hi < lo then None
    else if TldDotAt(s, hi) then Some(hi)
    else LastTldDotIn(s, lo, hi - 1)
  }

  /** `[a-zA-Z0-9.-]+\.[a-zA-Z]{2,}` at `a`: the end of the match. The first
      run is taken whole and handed back until a dot with two letters after
      it is reached; the letter run is then as long as possible. */
  function DomainAt(s: string, a: nat): (r: Option<nat>)
    ensures r.Some? ==> a < r.value <= |s|
    ensures r.Some? ==> forall k :: a <= k < r.value ==> IsDomainChar(s[k])
    ensures r.Some? ==> exists m :: a < m && TldFrom(s[..r.value], m)
  {
    if a >= |s| then None
    else
      var e := RunEnd(s, a, IsDomainChar);
      match LastTldDotIn(s, a + 1, e - 1)
      case None => None
      case Some(m) =>
        var end := RunEnd(s, m + 1, IsAsciiLetter);
        assert TldFrom(s[..end], m);
        Some(end)
  }

  /** The e-mail pattern at `p`. The local run cannot give back an '@', so it
      is taken whole and must be followed by one. */
  function EmailAt(s: string, p: nat): (r: Option<string>)
    ensures r.Some? ==> EmailShaped(r.value)
    ensures r.Some? ==> exists a :: p < a && DomainAt(s, a).Some?
  {
    if p >= |s| || !IsLocalChar(s[p]) then None
    else
      var e := RunEnd(s, p, IsLocalChar);
      if e < |s| && s[e] == '@' then
        match DomainAt(s, e + 1)
        case None => None
        case Some(end) =>
          var v := s[p..end];
          assert OnlyAt(v, '@', e - p) by {
            forall j | 0 <= j < |v| && j != e - p ensures v[j] != '@' {
              assert v[j] == s[p + j];
            }
          }
          var m :| e + 1 < m && TldFrom(s[..end], m);
          assert TldFrom(v, m - p) by {
            forall k | m - p < k < |v| ensures IsAsciiLetter(v[k]) {
              assert v[k] == s[..end][p + k];
            }
          }
          Some(v)
      else None
  }

  /** `c` occurs in `v` at index `k` and nowhere else. */
  predicate OnlyAt(v: string, c: char, k: int)
  {
    0 <= k < |v| && v[k] == c && forall j :: 0 <= j < |v| && j != k ==> v[j] != c
  }

  /** What every e-mail match looks like: exactly one '@', and a final '.'
      followed by two or more ASCII letters. */
  ghost predicate EmailShaped(v: string)
  {
    (exists k :: OnlyAt(v, '@', k)) && (exists m :: TldFrom(v, m))
  }

  /** Group 1 of the e-mail pattern. */
  function EmailMatch(line: string): (r: Option<string>)
    ensures r.Some? ==> EmailShaped(r.value)
  {
    match FindFirst(line, 0, EmailAt)
    case None => None
    case Some(h) => Some(h.val)
  }

  /** The first alternative of the website pattern at `p`, `https?:\/\/[^\s]+`.
      When "https://" is present the optional 's' cannot be given back, since
      "http" would then have to be followed by ':'. */
  function UrlEnd(s: string, p: nat): (r: Option<nat>)
    ensures r.Some? ==> p < r.value <= |s| && (OccursAt(s, "http://", p) || OccursAt(s, "https://", p))
    ensures r.Some? ==> forall i :: p <= i < r.value ==> IsNonSpace(s[i])
  {
    if OccursAt(s, "https://", p) then
      if p + 8 < |s| && IsNonSpace(s[p + 8]) then
        assert forall i :: p <= i < p + 8 ==> s[i] == "https://"[i - p];
        Some(RunEnd(s, p + 8, IsNonSpace))
      else None
    else if OccursAt(s, "http://", p) then
      if p + 7 < |s| && IsNonSpace(s[p + 7]) then
        assert forall i :: p <= i < p + 7 ==> s[i] == "http://"[i - p];
        Some(RunEnd(s, p + 7, IsNonSpace))
      else None
    else None
  }

  /** The second alternative, `www\.[^\s]+`. */
  function WwwEnd(s: string, p: nat): (r: Option<nat>)
    ensures r.Some? ==> p < r.value <= |s| && OccursAt(s, "www.", p)
    ensures r.Some? ==> forall i :: p <= i < r.value ==> IsNonSpace(s[i])
  {
    if OccursAt(s, "www.", p) && p + 4 < |s| && IsNonSpace(s[p + 4]) then
      assert forall i :: p <= i < p + 4 ==> s[i] == "www."[i - p];
      Some(RunEnd(s, p + 4, IsNonSpace))
    else None
  }

  /** The website pattern at `p`: its three alternatives in order. */
  function WebsiteAt(s: string, p: nat): (r: Option<string>)
    ensures r.Some? ==> r.value != [] && forall i :: 0 <= i < |r.value| ==> IsNonSpace(r.value[i])
    ensures DomainAt(s, p).Some? ==> r.Some?
  {
    var end :=
      match UrlEnd(s, p)
      case Some(e) => Some(e)
      case None =>
        match WwwEnd(s, p)
        case Some(e) => Some(e)
        case None => DomainAt(s, p);
    match end
    case None => None
    case Some(e) =>
      assert p < e <= |s|;
      assert forall i :: p <= i < e ==> IsNonSpace(s[i]);
      Some(s[p..e])
  }

  /** Group 1 of the website pattern. */
  function WebsiteMatch(line: string): (r: Option<string>)
    ensures r.Some? ==> r.value != [] && forall i :: 0 <= i < |r.value| ==> IsNonSpace(r.value[i])
  {
    match FindFirst(line, 0, WebsiteAt)
    case None => None
    case Some(h) => Some(h.val)
  }

  // ---------------------------------------------------------------------
  // Postal code: /〒?\s*(\d{3}-?\d{4})/ and the replace pattern
  // /〒\s*\d{3}-?\d{4}\s*/
  // ---------------------------------------------------------------------

  /** A Japanese postal code as the pattern accepts it: three digits, an
      optional '-', four digits. */
  predicate PostalShaped(v: string)
  {
    || (|v| == 7 && forall k :: 0 <= k < 7 ==> IsDigit(v[k]))
    || (|v| == 8 && v[3] == '-' && forall k :: 0 <= k < 8 && k != 3 ==> IsDigit(v[k]))
  }

  predicate DigitsAt(s: string, r: nat, n: nat)
  {
    r + n <= |s| && forall k :: r <= k < r + n ==> IsDigit(s[k])
  }

  /** `\d{3}-?\d{4}` at `r`: the end of the code. With a '-' after the first
      three digits the optional '-' is taken, and giving it back cannot help
      because '-' is not a digit. */
  function CodeEnd(s: string, r: nat): (c: Option<nat>)
    ensures c.Some? ==> r + 7 <= c.value <= |s| && PostalShaped(s[r..c.value])
  {
    if !DigitsAt(s, r, 3) then None
    else if r + 3 < |s| && s[r + 3] == '-' then
      if DigitsAt(s, r + 4, 4) then Some(r + 8) else None
    else if DigitsAt(s, r + 3, 4) then Some(r + 7)
    else None
  }

  /** `〒?\s*(\d{3}-?\d{4})` at `p`, group 1. Leaving out the optional '〒'
      cannot help either, since '〒' is neither space nor digit. */
  function PostalAt(s: string, p: nat): (r: Option<string>)
    ensures r.Some? ==> PostalShaped(r.value)
  {
    if p > |s| then None
    else
      var q := if p < |s| && s[p] == '〒' then p + 1 else p;
      var r := RunEnd(s, q, IsSpace);
      match CodeEnd(s, r)
      case None => None
      case Some(c) => Some(s[r..c])
  }

  /** Group 1 of the postal-code pattern. */
  function PostalMatch(line: string): (r: Option<string>)
    ensures r.Some? ==> PostalShaped(r.value)
  {
    match FindFirst(line, 0, PostalAt)
    case None => None
    case Some(h) => Some(h.val)
  }

  /** `〒\s*\d{3}-?\d{4}\s*` at `p`: the end of the text that is removed. */
  function PostalMarkAt(s: string, p: nat): (r: Option<nat>)
    ensures r.Some? ==> p < r.value <= |s| && s[p] == '〒'
  {
    if p < |s| && s[p] == '〒' then
      var r := RunEnd(s, p + 1, IsSpace);
      match CodeEnd(s, r)
      case None => None
      case Some(c) => Some(RunEnd(s, c, IsSpace))
    else None
  }

  /** `line.replace` with the pattern `〒\s*\d{3}-?\d{4}\s*` and ''; the leftmost marked postal
      code, with the space around it, is cut out; without one the line is
      returned as it is. */
  function RemovePostalMark(line: string): (r: string)
    ensures |r| <= |line|
    ensures '〒' !in line ==> r == line
  {
    match FindFirst(line, 0, PostalMarkAt)
    case None => line
    case Some(h) => line[..h.pos] + line[h.val..]
  }
}
