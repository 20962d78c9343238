/**
 * The quoted-value scanner of mcp_kafka/utils/string.py: `parse_value(key, text, quotes)`
 * pulls the value out of a `key="value"` pair embedded in a JAAS configuration string.
 *
 * `ParseValue` is the scanner itself, with its two index-driven loops and its in-place
 * update of the last collected character. `Extracted` is the function it is proved equal
 * to, and the lemmas below state what `Extracted` promises: the failure cases, the
 * first-occurrence rule, the escape folding, the bounds and the round trip.
 */
module StringUtil {
  import opened Wrappers

  /** The quote characters tried when the caller passes none: `'"'` and `"'"`. */
  const DefaultQuotes: seq<char> := ['"', '\'']

  const Backslash: char := '\\'

  /**
   * Python's `str.isspace` on one character: the Unicode white space plus U+001C..U+001F.
   * Neither a default quote, nor `=`, nor a backslash is white space.
   */
  function IsSpace(c: char): (r: bool)
    ensures r ==> c !in DefaultQuotes && c != '=' && c != Backslash
  {
    var n := c as int;
    (9 <= n <= 13) || (28 <= n <= 32) || n == 0x85 || n == 0xA0 || n == 0x1680 ||
    (0x2000 <= n <= 0x200A) || n == 0x2028 || n == 0x2029 || n == 0x202F ||
    n == 0x205F || n == 0x3000
  }

  /** `key` occurs in `text` starting at index `i`. */
  predicate OccursAt(text: string, key: string, i: nat)
  {
    i + |key| <= |text| && forall m :: 0 <= m < |key| ==> text[i + m] == key[m]
  }

  /** Python's `text.find(key, start)`: the first occurrence of `key` at or after `start`. */
  function FindFrom(text: string, key: string, start: nat): (r: Option<nat>)
    ensures r.Some? ==> start <= r.value && r.value + |key| <= |text|
    decreases |text| - start
  {
    if start + |key| > |text| then None
    else if OccursAt(text, key, start) then Some(start)
    else FindFrom(text, key, start + 1)
  }

  /** `FindFrom` finds the first occurrence at or after `start`, and None means there is none. */
  lemma {:induction false} FindFromIsFirst(text: string, key: string, start: nat)
    ensures var r := FindFrom(text, key, start);
            (r.Some? ==> OccursAt(text, key, r.value) &&
                         forall j :: start <= j < r.value ==> !OccursAt(text, key, j)) &&
            (r.None? ==> forall j :: start <= j ==> !OccursAt(text, key, j))
    decreases |text| - start
  {
    if start + |key| <= |text| && !OccursAt(text, key, start) {
      FindFromIsFirst(text, key, start + 1);
    }
  }

  /** The first index at or after `i` that does not hold white space (`|text|` if none). */
  function SkipSpaces(text: string, i: nat): (r: nat)
    requires i <= |text|
    ensures i <= r <= |text|
    decreases |text| - i
  {
    if i < |text| && IsSpace(text[i]) then SkipSpaces(text, i + 1) else i
  }

  /** `SkipSpaces` stops at the first character that is not white space. */
  lemma {:induction false} SkipSpacesIsFirstNonSpace(text: string, i: nat)
    requires i <= |text|
    ensures var r := SkipSpaces(text, i);
            (forall j {:trigger IsSpace(text[j])} :: i <= j < r ==> IsSpace(text[j])) &&
            (r < |text| ==> !IsSpace(text[r]))
    decreases |text| - i
  {
    if i < |text| && IsSpace(text[i]) {
      SkipSpacesIsFirstNonSpace(text, i + 1);
    }
  }

  /**
   * The index of the opening quote of a value whose key ends at `from`: the first `=` at
   * or after `from`, then the first non-space character after it, which must be one of
   * `quotes`. None when either is missing.
   */
  function QuoteAfter(text: string, quotes: seq<char>, from: nat): (r: Option<nat>)
    ensures r.Some? ==> from < r.value < |text| && text[r.value] in quotes
  {
    match FindFrom(text, "=", from)
    case None => None
    case Some(e) =>
      var i := SkipSpaces(text, e + 1);
      if i == |text| || text[i] !in quotes then None else Some(i)
  }

  /** The index of the opening quote of the value of the first occurrence of `key`. */
  function OpeningQuote(key: string, text: string, quotes: seq<char>): (r: Option<nat>)
    ensures r.Some? ==> r.value < |text| && text[r.value] in quotes
  {
    match FindFrom(text, key, 0)
    case None => None
    case Some(k) => QuoteAfter(text, quotes, k + |key|)
  }

  /**
   * The characters collected from index `i` on, `acc` being those collected before `i`:
   * a character other than `q` is appended; a `q` right after a collected backslash
   * replaces that backslash; any other `q` ends the value; so does the end of the text.
   * No character collected before `i` is dropped.
   */
  function Scan(text: string, q: char, i: nat, acc: string): (r: string)
    requires i <= |text|
    ensures |acc| <= |r|
    decreases |text| - i
  {
    if i == |text| then acc
    else if text[i] == q then
      if |acc| > 0 && acc[|acc| - 1] == Backslash then Scan(text, q, i + 1, acc[|acc| - 1 := q])
      else acc
    else Scan(text, q, i + 1, acc + [text[i]])
  }

  /** What `parse_value(key, text, quotes)` returns; `''` is the failure value. */
  function Extracted(key: string, text: string, quotes: seq<char>): string
  {
    match OpeningQuote(key, text, quotes)
    case None => []
    case Some(o) => Scan(text, text[o], o + 1, [])
  }

  /** The collected value never holds more characters than the text has left to scan. */
  lemma {:induction false} ScanLength(text: string, q: char, i: nat, acc: string)
    requires i <= |text|
    ensures |Scan(text, q, i, acc)| <= |acc| + (|text| - i)
    decreases |text| - i
  {
    if i < |text| {
      if text[i] == q {
        if |acc| > 0 && acc[|acc| - 1] == Backslash {
          ScanLength(text, q, i + 1, acc[|acc| - 1 := q]);
        }
      } else {
        ScanLength(text, q, i + 1, acc + [text[i]]);
      }
    }
  }

  /**
   * `''` whenever no opening quote is found (key missing, no `=` after it, or the first
   * non-space after the `=` is not a quote); otherwise the value fits in the text after
   * the opening quote.
   */
  lemma {:induction false} ExtractedBounds(key: string, text: string, quotes: seq<char>)
    ensures OpeningQuote(key, text, quotes).None? ==> Extracted(key, text, quotes) == []
    ensures OpeningQuote(key, text, quotes).Some? ==>
              |Extracted(key, text, quotes)| <= |text| - OpeningQuote(key, text, quotes).value - 1
  {
    match OpeningQuote(key, text, quotes)
    case None =>
    case Some(o) => ScanLength(text, text[o], o + 1, []);
  }

  /** The scanner as written: two loops over the index `i`, collecting into `value`. */
  method ParseValue(key: string, text: string, quotes: seq<char> := DefaultQuotes) returns (r: string)
    ensures r == Extracted(key, text, quotes)
  {
    var keyPos := FindFrom(text, key, 0);
    if keyPos.None? {
      assert OpeningQuote(key, text, quotes).None?;
      return [];
    }
    var eqPos := FindFrom(text, "=", keyPos.value + |key|);
    if eqPos.None? {
      assert QuoteAfter(text, quotes, keyPos.value + |key|).None?;
      return [];
    }
    var i := eqPos.value + 1;
    while i < |text| && IsSpace(text[i])
      invariant eqPos.value + 1 <= i <= |text|
      invariant SkipSpaces(text, i) == SkipSpaces(text, eqPos.value + 1)
      decreases |text| - i
    {
      i := i + 1;
    }
    assert i == SkipSpaces(text, eqPos.value + 1);
    if i >= |text| || text[i] !in quotes {
      assert QuoteAfter(text, quotes, keyPos.value + |key|).None?;
      return [];
    }
    assert QuoteAfter(text, quotes, keyPos.value + |key|) == Some(i);
    var quoteChar := text[i];
    r := CollectQuoted(text, quoteChar, i + 1);
  }

  /**
   * The second loop of the scanner: collect characters from `i` on until the closing
   * quote, folding a backslash-escaped quote into a literal quote.
   */
  method CollectQuoted(text: string, quoteChar: char, i: nat) returns (r: string)
    requires i <= |text|
    ensures r == Scan(text, quoteChar, i, [])
  {
    var value: string := [];
    var k := i;
    while k < |text|
      invariant i <= k <= |text|
      invariant Scan(text, quoteChar, k, value) == Scan(text, quoteChar, i, [])
      decreases |text| - k
    {
      var ch := text[k];
      if ch == quoteChar {
        if |value| > 0 && value[|value| - 1] == Backslash {
          value := value[|value| - 1 := quoteChar];
        } else {
          break;
        }
      } else {
        value := value + [ch];
      }
      k := k + 1;
    }
    r := value;
  }

  // ---------------------------------------------------------------------------
  // Where the value starts, and the three ways of finding none

  lemma {:induction false} FindFromAt(text: string, key: string, start: nat, k: nat)
    requires start <= k && OccursAt(text, key, k)
    requires forall j :: start <= j < k ==> !OccursAt(text, key, j)
    ensures FindFrom(text, key, start) == Some(k)
  {
    FindFromSkips(text, key, start, k);
  }

  lemma {:induction false} SkipSpacesAt(text: string, i: nat, p: nat)
    requires i <= p <= |text|
    requires forall j {:trigger IsSpace(text[j])} :: i <= j < p ==> IsSpace(text[j])
    requires p < |text| ==> !IsSpace(text[p])
    ensures SkipSpaces(text, i) == p
    decreases p - i
  {
    if i < p {
      SkipSpacesAt(text, i + 1, p);
    }
  }

  /** When the key does not occur in the text, the result is `''`. */
  lemma {:induction false} KeyAbsent(key: string, text: string, quotes: seq<char>)
    requires forall j :: !OccursAt(text, key, j)
    ensures Extracted(key, text, quotes) == []
  {
    FindFromIsFirst(text, key, 0);
  }

  /**
   * When the first occurrence of the key, at `k`, is followed by no `=` anywhere after
   * its end, the result is `''`.
   */
  lemma {:induction false} NoEqualsAfterKey(key: string, text: string, quotes: seq<char>, k: nat)
    requires OccursAt(text, key, k) && forall j :: 0 <= j < k ==> !OccursAt(text, key, j)
    requires forall j :: k + |key| <= j < |text| ==> text[j] != '='
    ensures Extracted(key, text, quotes) == []
  {
    FindFromAt(text, key, 0, k);
    EqualsSignAt(text);
    FindFromIsFirst(text, "=", k + |key|);
  }

  /** `=` occurs at `j` exactly when `text[j]` is `=`. */
  lemma {:induction false} EqualsSignAt(text: string)
    ensures forall j: nat {:trigger OccursAt(text, "=", j)} :: OccursAt(text, "=", j) <==> j < |text| && text[j] == '='
  {
    forall j: nat
      ensures OccursAt(text, "=", j) <==> j < |text| && text[j] == '='
    {
      assert "="[0] == '=';
    }
  }

  /**
   * With the first occurrence of the key at `k`, the first `=` after it at `e` and the
   * white space after that `=` ending at `p`, the opening quote is at `p` exactly when
   * `p` is inside the text and holds one of `quotes`; otherwise the result is `''`.
   */
  lemma {:induction false} OpeningQuoteAt(key: string, text: string, quotes: seq<char>, k: nat, e: nat, p: nat)
    requires OccursAt(text, key, k) && forall j :: 0 <= j < k ==> !OccursAt(text, key, j)
    requires k + |key| <= e < |text| && text[e] == '='
    requires forall j :: k + |key| <= j < e ==> text[j] != '='
    requires e < p <= |text|
    requires forall j {:trigger IsSpace(text[j])} :: e < j < p ==> IsSpace(text[j])
    requires p < |text| ==> !IsSpace(text[p])
    ensures OpeningQuote(key, text, quotes) == if p < |text| && text[p] in quotes then Some(p) else None
    ensures p == |text| || text[p] !in quotes ==> Extracted(key, text, quotes) == []
  {
    FindFromAt(text, key, 0, k);
    EqualsSignAt(text);
    FindFromAt(text, "=", k + |key|, e);
    SkipSpacesAt(text, e + 1, p);
  }

  // ---------------------------------------------------------------------------
  // Where the value ends and what it decodes to

  /**
   * The quote at index `j` closes a value whose first character is at `start`: it is the
   * quote character and is not directly preceded, inside the value, by a backslash.
   */
  predicate IsClosing(text: string, q: char, start: nat, j: nat)
    requires start <= j < |text|
  {
    text[j] == q && (j == start || text[j - 1] != Backslash)
  }

  /** The first closing quote at or after `j`, or `|text|` when the value runs to the end. */
  function ClosingFrom(text: string, q: char, start: nat, j: nat): (r: nat)
    requires start <= j <= |text|
    ensures j <= r <= |text|
    decreases |text| - j
  {
    if j == |text| then j
    else if IsClosing(text, q, start, j) then j
    else ClosingFrom(text, q, start, j + 1)
  }

  /** `ClosingFrom` is the first closing quote at or after `j`. */
  lemma {:induction false} ClosingFromIsFirst(text: string, q: char, start: nat, j: nat)
    requires start <= j <= |text|
    ensures var r := ClosingFrom(text, q, start, j);
            (r < |text| ==> IsClosing(text, q, start, r)) &&
            (forall k :: j <= k < r ==> !IsClosing(text, q, start, k))
    decreases |text| - j
  {
    if j < |text| && !IsClosing(text, q, start, j) {
      ClosingFromIsFirst(text, q, start, j + 1);
    }
  }

  /** `s` with every backslash that directly precedes the quote `q` dropped. */
  function Unescape(s: string, q: char): (r: string)
    ensures |r| <= |s|
  {
    if s == [] then []
    else if |s| >= 2 && s[|s| - 2] == Backslash && s[|s| - 1] == q then Unescape(s[..|s| - 2], q) + [q]
    else Unescape(s[..|s| - 1], q) + [s[|s| - 1]]
  }

  /** How a writer quotes `v`: a backslash goes in front of every `q`. */
  function Escape(v: string, q: char): (r: string)
    ensures |r| >= |v|
  {
    if v == [] then []
    else (if v[0] == q then [Backslash, q] else [v[0]]) + Escape(v[1..], q)
  }

  /**
   * Scanning from `i` up to the closing quote at `c` (or the end of the text) adds the
   * unescaped characters of `text[i..c]` to what was collected from `start` on.
   */
  lemma {:induction false} ScanUnescapes(text: string, q: char, start: nat, c: nat, i: nat, acc: string)
    requires q != Backslash
    requires start <= i <= c <= |text|
    requires c < |text| ==> IsClosing(text, q, start, c)
    requires forall k :: i <= k < c ==> !IsClosing(text, q, start, k)
    requires acc == Unescape(text[start..i], q)
    ensures Scan(text, q, i, acc) == Unescape(text[start..c], q)
    decreases |text| - i
  {
    if i == c {
      ScanAtClosing(text, q, start, c, acc);
    } else {
      UnescapeStep(text, q, start, i, acc);
      if text[i] == q {
        ScanUnescapes(text, q, start, c, i + 1, acc[|acc| - 1 := q]);
      } else {
        ScanUnescapes(text, q, start, c, i + 1, acc + [text[i]]);
      }
    }
  }

  /** One step of the scan inside the value keeps the collected text equal to the unescaped prefix. */
  lemma {:induction false} UnescapeStep(text: string, q: char, start: nat, i: nat, acc: string)
    requires q != Backslash
    requires start <= i < |text| && !IsClosing(text, q, start, i)
    requires acc == Unescape(text[start..i], q)
    ensures text[i] == q ==> |acc| > 0 && acc[|acc| - 1] == Backslash &&
                             acc[|acc| - 1 := q] == Unescape(text[start..i + 1], q)
    ensures text[i] != q ==> acc + [text[i]] == Unescape(text[start..i + 1], q)
  {
    var s := text[start..i];
    assert text[start..i + 1] == s + [text[i]];
    if text[i] == q {
      assert s[|s| - 1] == text[i - 1];
      UnescapeFold(s, q);
      var u := Unescape(s[..|s| - 1], q);
      assert (u + [Backslash])[|u| := q] == u + [q];
    } else {
      UnescapeAppend(s, text[i], q);
    }
  }

  /** Scanning stops at the closing quote and keeps what was collected. */
  lemma {:induction false} ScanAtClosing(text: string, q: char, start: nat, c: nat, acc: string)
    requires q != Backslash
    requires start <= c <= |text|
    requires c < |text| ==> IsClosing(text, q, start, c)
    requires acc == Unescape(text[start..c], q)
    ensures Scan(text, q, c, acc) == acc
  {
    if c < |text| && c > start {
      var s := text[start..c];
      assert s[|s| - 1] == text[c - 1];
      UnescapeLast(s, q);
    }
  }

  /** Unescaping keeps a last character that is not a backslash. */
  lemma {:induction false} UnescapeLast(s: string, q: char)
    requires q != Backslash && |s| > 0 && s[|s| - 1] != Backslash
    ensures var u := Unescape(s, q); |u| > 0 && u[|u| - 1] != Backslash
  {
  }

  /** A quote after a backslash replaces that backslash in the unescaped text. */
  lemma {:induction false} UnescapeFold(s: string, q: char)
    requires q != Backslash && |s| > 0 && s[|s| - 1] == Backslash
    ensures Unescape(s, q) == Unescape(s[..|s| - 1], q) + [Backslash]
    ensures Unescape(s + [q], q) == Unescape(s[..|s| - 1], q) + [q]
  {
    assert (s + [q])[..|s| - 1] == s[..|s| - 1];
  }

  /** Any character other than the quote is kept as it is. */
  lemma {:induction false} UnescapeAppend(s: string, c: char, q: char)
    requires c != q
    ensures Unescape(s + [c], q) == Unescape(s, q) + [c]
  {
    assert (s + [c])[..|s|] == s;
  }

  /**
   * The value is the text between the opening quote and the first quote not preceded by a
   * backslash (or the end of the text), with every backslash-quote pair folded to a quote.
   */
  lemma {:induction false} ExtractedIsUnescapedSegment(key: string, text: string, quotes: seq<char>)
    requires OpeningQuote(key, text, quotes).Some?
    requires text[OpeningQuote(key, text, quotes).value] != Backslash
    ensures var o := OpeningQuote(key, text, quotes).value;
            Extracted(key, text, quotes) == Unescape(text[o + 1..ClosingFrom(text, text[o], o + 1, o + 1)], text[o])
  {
    var o := OpeningQuote(key, text, quotes).value;
    assert text[o + 1..o + 1] == [];
    ClosingFromIsFirst(text, text[o], o + 1, o + 1);
    ScanUnescapes(text, text[o], o + 1, ClosingFrom(text, text[o], o + 1, o + 1), o + 1, []);
  }

  lemma {:induction false} UnescapedQuoteComesFromText(s: string, q: char)
    requires q in Unescape(s, q)
    ensures q in s
  {
    if s != [] {
      if |s| >= 2 && s[|s| - 2] == Backslash && s[|s| - 1] == q {
      } else if q in Unescape(s[..|s| - 1], q) {
        UnescapedQuoteComesFromText(s[..|s| - 1], q);
      }
    }
  }

  /**
   * The opening quote character appears in the value only where the text escaped it, and
   * the backslash-quote pair lies inside the value, before its closing quote.
   */
  lemma {:induction false} QuoteOnlyThroughFolding(key: string, text: string, quotes: seq<char>)
    requires OpeningQuote(key, text, quotes).Some?
    requires text[OpeningQuote(key, text, quotes).value] != Backslash
    requires text[OpeningQuote(key, text, quotes).value] in Extracted(key, text, quotes)
    ensures var o := OpeningQuote(key, text, quotes).value;
            exists k :: o + 1 < k < ClosingFrom(text, text[o], o + 1, o + 1) &&
                        text[k - 1] == Backslash && text[k] == text[o]
  {
    var o := OpeningQuote(key, text, quotes).value;
    var q := text[o];
    var c := ClosingFrom(text, q, o + 1, o + 1);
    ExtractedIsUnescapedSegment(key, text, quotes);
    EscapedQuoteInSegment(text, q, o + 1);
  }

  /**
   * A quote in the unescaped segment starting at `start` stands after a backslash inside
   * that segment.
   */
  lemma {:induction false} EscapedQuoteInSegment(text: string, q: char, start: nat)
    requires start <= |text|
    requires q in Unescape(text[start..ClosingFrom(text, q, start, start)], q)
    ensures exists k :: start < k < ClosingFrom(text, q, start, start) && text[k - 1] == Backslash && text[k] == q
  {
    var c := ClosingFrom(text, q, start, start);
    UnescapedQuoteComesFromText(text[start..c], q);
    IndexInSlice(text, start, c, q);
    var k :| start <= k < c && text[k] == q;
    ClosingFromIsFirst(text, q, start, start);
    assert !IsClosing(text, q, start, k);
  }

  lemma {:induction false} IndexInSlice(s: string, a: nat, b: nat, x: char)
    requires a <= b <= |s| && x in s[a..b]
    ensures exists k :: a <= k < b && s[k] == x
  {
    var m :| 0 <= m < b - a && s[a..b][m] == x;
    assert s[a + m] == x;
  }

  // ---------------------------------------------------------------------------
  // Round trip

  lemma {:induction false} ScanEscaped(text: string, q: char, i: nat, acc: string, v: string)
    requires q != Backslash
    requires i + |Escape(v, q)| < |text|
    requires text[i..i + |Escape(v, q)|] == Escape(v, q) && text[i + |Escape(v, q)|] == q
    requires acc + v == [] || (acc + v)[|acc + v| - 1] != Backslash
    ensures Scan(text, q, i, acc) == acc + v
    decreases v
  {
    var e := Escape(v, q);
    if v != [] {
      var head := if v[0] == q then [Backslash, q] else [v[0]];
      assert e == head + Escape(v[1..], q);
      var n := |head|;
      assert text[i + n..i + |e|] == e[n..] == Escape(v[1..], q);
      assert acc + v == (acc + [v[0]]) + v[1..];
      if v[0] == q {
        assert text[i] == Backslash && text[i + 1] == q;
        assert (acc + [Backslash])[|acc| := q] == acc + [v[0]];
        ScanEscaped(text, q, i + 2, acc + [v[0]], v[1..]);
      } else {
        assert text[i] == v[0];
        ScanEscaped(text, q, i + 1, acc + [v[0]], v[1..]);
      }
    }
  }

  lemma {:induction false} ExtractedFrom(key: string, text: string, quotes: seq<char>, p: nat, v: string)
    requires OpeningQuote(key, text, quotes) == Some(p) && Scan(text, text[p], p + 1, []) == v
    ensures Extracted(key, text, quotes) == v
  {
  }

  /** The opening quote sits at `p` when the text starts with `key=`, then white space up to `p`. */
  lemma {:induction false} OpeningQuoteAfterKey(key: string, text: string, quotes: seq<char>, p: nat)
    requires |key| < p < |text|
    requires text[..|key|] == key && text[|key|] == '='
    requires forall j :: |key| < j < p ==> IsSpace(text[j])
    requires text[p] in quotes && !IsSpace(text[p])
    ensures OpeningQuote(key, text, quotes) == Some(p)
  {
    assert forall m :: 0 <= m < |key| ==> text[m] == text[..|key|][m];
    OpeningQuoteAt(key, text, quotes, 0, |key|, p);
  }

  lemma {:induction false} OpeningQuoteOfPair(key: string, ws: string, q: char, t: string, quotes: seq<char>)
    requires forall j :: 0 <= j < |ws| ==> IsSpace(ws[j])
    requires q in quotes && !IsSpace(q)
    ensures OpeningQuote(key, key + "=" + ws + [q] + t, quotes) == Some(|key| + 1 + |ws|)
  {
    var text := key + "=" + ws + [q] + t;
    var p := |key| + 1 + |ws|;
    forall j | |key| < j < p
      ensures IsSpace(text[j])
    {
      assert text[j] == ws[j - |key| - 1];
    }
    OpeningQuoteAfterKey(key, text, quotes, p);
  }

  /**
   * Quoting a value with `Escape` and writing it as `key=<spaces>"..."` at the start of
   * a text gives the value back, whatever follows, provided it does not end with a backslash.
   */
  lemma {:induction false} RoundTrip(key: string, ws: string, v: string, q: char, rest: string, quotes: seq<char>)
    requires q in quotes && q != Backslash && !IsSpace(q)
    requires forall j :: 0 <= j < |ws| ==> IsSpace(ws[j])
    requires v == [] || v[|v| - 1] != Backslash
    ensures Extracted(key, key + "=" + ws + [q] + Escape(v, q) + [q] + rest, quotes) == v
  {
    var e := Escape(v, q);
    var opening := key + "=" + ws + [q];
    var body := e + [q] + rest;
    var text := opening + body;
    var p := |opening| - 1;
    assert key + "=" + ws + [q] + e + [q] + rest == text;
    OpeningQuoteOfPair(key, ws, q, body, quotes);
    assert text[p] == q;
    assert body[0..|e|] == e && body[|e|] == q;
    ScanEscaped(body, q, 0, [], v);
    ScanShift(opening, body, q, 0, []);
    assert Scan(text, text[p], p + 1, []) == v;
    ExtractedFrom(key, text, quotes, p, v);
  }

  lemma {:induction false} EscapeWithoutQuote(v: string, q: char)
    requires q !in v
    ensures Escape(v, q) == v
    decreases v
  {
    if v != [] {
      assert v == [v[0]] + v[1..];
      EscapeWithoutQuote(v[1..], q);
    }
  }

  /** `parse_value(k, k + '="' + v + '"')` is `v` for a `v` free of `"` and backslashes. */
  lemma {:induction false} RoundTripPlain(key: string, v: string)
    requires '"' !in v && Backslash !in v
    ensures Extracted(key, key + "=\"" + v + "\"", DefaultQuotes) == v
  {
    EscapeWithoutQuote(v, '"');
    PlainPairShape(key, v);
    RoundTrip(key, [], v, '"', [], DefaultQuotes);
  }

  lemma {:induction false} PlainPairShape(key: string, v: string)
    ensures key + "=\"" + v + "\"" == key + "=" + [] + ['"'] + v + ['"'] + []
  {
  }

  // ---------------------------------------------------------------------------
  // Only the first occurrence of the key counts

  /** An index found in `text` moved to where it sits in `pre + text`, `|pre|` further on. */
  function Shifted(r: Option<nat>, n: nat): Option<nat>
  {
    match r
    case None => None
    case Some(x) => Some(n + x)
  }

  lemma {:induction false} FindFromShift(pre: string, text: string, key: string, s: nat)
    ensures FindFrom(pre + text, key, |pre| + s) == Shifted(FindFrom(text, key, s), |pre|)
    decreases |text| - s
  {
    var t := pre + text;
    if s + |key| <= |text| {
      assert t[|pre| + s..|pre| + s + |key|] == text[s..s + |key|];
      if !OccursAt(text, key, s) {
        FindFromShift(pre, text, key, s + 1);
      }
    }
  }

  lemma {:induction false} FindFromSkips(text: string, key: string, j: nat, n: nat)
    requires j <= n
    requires forall m :: j <= m < n ==> !OccursAt(text, key, m)
    ensures FindFrom(text, key, j) == FindFrom(text, key, n)
    decreases n - j
  {
    if j < n && j + |key| <= |text| {
      FindFromSkips(text, key, j + 1, n);
    }
  }

  lemma {:induction false} SkipSpacesShift(pre: string, text: string, i: nat)
    requires i <= |text|
    ensures SkipSpaces(pre + text, |pre| + i) == |pre| + SkipSpaces(text, i)
    decreases |text| - i
  {
    if i < |text| {
      assert (pre + text)[|pre| + i] == text[i];
      SkipSpacesShift(pre, text, i + 1);
    }
  }

  lemma {:induction false} ScanShift(pre: string, text: string, q: char, i: nat, acc: string)
    requires i <= |text|
    ensures Scan(pre + text, q, |pre| + i, acc) == Scan(text, q, i, acc)
    decreases |text| - i
  {
    if i < |text| {
      assert (pre + text)[|pre| + i] == text[i];
      if text[i] == q {
        if |acc| > 0 && acc[|acc| - 1] == Backslash {
          ScanShift(pre, text, q, i + 1, acc[|acc| - 1 := q]);
        }
      } else {
        ScanShift(pre, text, q, i + 1, acc + [text[i]]);
      }
    }
  }

  lemma {:induction false} QuoteAfterShift(pre: string, text: string, quotes: seq<char>, from: nat)
    ensures QuoteAfter(pre + text, quotes, |pre| + from) == Shifted(QuoteAfter(text, quotes, from), |pre|)
  {
    FindFromShift(pre, text, "=", from);
    match FindFrom(text, "=", from)
    case None =>
    case Some(e) =>
      SkipSpacesShift(pre, text, e + 1);
      var i := SkipSpaces(text, e + 1);
      if i < |text| {
        assert (pre + text)[|pre| + i] == text[i];
      }
  }

  lemma {:induction false} FirstOccurrenceShift(key: string, pre: string, text: string)
    requires forall j :: 0 <= j < |pre| ==> !OccursAt(pre + text, key, j)
    ensures FindFrom(pre + text, key, 0) == Shifted(FindFrom(text, key, 0), |pre|)
  {
    FindFromSkips(pre + text, key, 0, |pre|);
    FindFromShift(pre, text, key, 0);
  }

  lemma {:induction false} OpeningQuoteShift(key: string, pre: string, text: string, quotes: seq<char>)
    requires FindFrom(pre + text, key, 0) == Shifted(FindFrom(text, key, 0), |pre|)
    ensures OpeningQuote(key, pre + text, quotes) == Shifted(OpeningQuote(key, text, quotes), |pre|)
  {
    if FindFrom(text, key, 0).Some? {
      var k := FindFrom(text, key, 0).value;
      QuoteAfterShift(pre, text, quotes, k + |key|);
    }
  }

  /**
   * Text in front of the first occurrence of the key does not change the result: the
   * scanner works from the first occurrence only, even when that occurrence is the tail
   * of a longer token.
   */
  lemma {:induction false} PrefixWithoutKey(key: string, pre: string, text: string, quotes: seq<char>)
    requires forall j :: 0 <= j < |pre| ==> !OccursAt(pre + text, key, j)
    ensures Extracted(key, pre + text, quotes) == Extracted(key, text, quotes)
  {
    FirstOccurrenceShift(key, pre, text);
    OpeningQuoteShift(key, pre, text, quotes);
    match OpeningQuote(key, text, quotes)
    case None =>
    case Some(o) =>
      assert (pre + text)[|pre| + o] == text[o];
      ScanShift(pre, text, text[o], o + 1, []);
  }

  /**
   * The key is matched as a substring: in `myuser="a" user="b"` the key `user` is found
   * inside `myuser` first, so the result is `a`.
   */
  lemma {:induction false} KeyInsideLongerToken()
    ensures Extracted("user", "myuser=\"a\" user=\"b\"", DefaultQuotes) == "a"
  {
    var text := "myuser=\"a\" user=\"b\"";
    assert text[0 + 0] != "user"[0] && text[1 + 0] != "user"[0];
    assert text[2..6] == "user";
    assert text[6] == '=' && text[7] == '"' && text[8] == 'a' && text[9] == '"';
    OpeningQuoteAt("user", text, DefaultQuotes, 2, 6, 7);
    assert Scan(text, '"', 9, "a") == "a";
    ExtractedFrom("user", text, DefaultQuotes, 7, "a");
  }
}
