/** The pure helpers of lib/utils.ts. */
module Utils {
  import opened Wrappers
  import opened Text
  import Decimal

  // ---------------------------------------------------------------------------
  // slugFormat: lower-case, trim, whitespace runs to '-', drop non-word chars
  // ---------------------------------------------------------------------------

  /** `toLowerCase()` over ASCII. */
  function LowerAll(s: string): (r: string)
    ensures |r| == |s|
    ensures forall i :: 0 <= i < |s| ==> r[i] == ToLower(s[i])
    ensures NoUpper(r)
  {
    seq(|s|, i requires 0 <= i < |s| => ToLower(s[i]))
  }

  /** `trim()` over ASCII whitespace. */
  function Trim(s: string): string {
    TrimEnd(TrimStart(s))
  }

  /** `.replace(/\s+/g, '-')`: every maximal run of whitespace becomes one '-'. */
  function HyphenateWhitespace(s: string): (r: string)
    ensures NoWhitespace(r)
    ensures NoUpper(s) ==> NoUpper(r)
    decreases |s|
  {
    if |s| == 0 then []
    else if IsWhitespace(s[0]) then
      var rest := TrimStart(s);
      assert NoUpper(s) ==> NoUpper(rest) by {
        forall i | 0 <= i < |rest| ensures rest[i] == s[|s| - |rest| + i] { }
      }
      "-" + HyphenateWhitespace(rest)
    else [s[0]] + HyphenateWhitespace(s[1..])
  }

  /** `.replace(/[^\w-]+/g, '')`: keep word characters and '-', drop the rest. */
  function KeepWordChars(s: string): (r: string)
    ensures |r| <= |s|
    ensures forall i :: 0 <= i < |r| ==> IsWordChar(r[i]) || r[i] == '-'
    ensures NoUpper(s) ==> NoUpper(r)
  {
    if |s| == 0 then []
    else (if IsWordChar(s[0]) || s[0] == '-' then [s[0]] else []) + KeepWordChars(s[1..])
  }

  /** The characters a slug is made of. */
  predicate IsSlugChar(c: char) {
    IsLower(c) || IsDigit(c) || c == '_' || c == '-'
  }

  predicate IsSlug(s: string) {
    forall i :: 0 <= i < |s| ==> IsSlugChar(s[i])
  }

  lemma NoUpperSlice(s: string, a: nat, b: nat)
    requires a <= b <= |s|
    requires NoUpper(s)
    ensures NoUpper(s[a..b])
  {
    forall i | 0 <= i < b - a ensures !IsUpper(s[a..b][i]) {
      assert s[a..b][i] == s[a + i];
    }
  }

  /** `slugFormat(str)`: the result holds only lower-case letters, digits, '_'
      and '-', so in particular no whitespace and no upper-case letter. */
  function SlugFormat(str: string): (r: string)
    ensures IsSlug(r)
    ensures NoWhitespace(r)
  {
    var lowered := LowerAll(str);
    var start := TrimStart(lowered);
    NoUpperSlice(lowered, |lowered| - |start|, |lowered|);
    var trimmed := TrimEnd(start);
    NoUpperSlice(start, 0, |trimmed|);
    assert Trim(lowered) == trimmed;
    var kept := KeepWordChars(HyphenateWhitespace(Trim(lowered)));
    WordCharsFormSlug(kept);
    kept
  }

  /** Word characters and '-' without upper case are exactly slug characters. */
  lemma WordCharsFormSlug(s: string)
    requires forall i :: 0 <= i < |s| ==> IsWordChar(s[i]) || s[i] == '-'
    requires NoUpper(s)
    ensures IsSlug(s) && NoWhitespace(s)
  {
    forall i | 0 <= i < |s| ensures IsSlugChar(s[i]) && !IsWhitespace(s[i]) {
      assert !IsUpper(s[i]);
    }
  }

  lemma {:induction false} HyphenateWithoutWhitespace(s: string)
    requires NoWhitespace(s)
    ensures HyphenateWhitespace(s) == s
    decreases |s|
  {
    if |s| > 0 {
      HyphenateWithoutWhitespace(s[1..]);
    }
  }

  lemma {:induction false} KeepWordCharsOfSlug(s: string)
    requires IsSlug(s)
    ensures KeepWordChars(s) == s
    decreases |s|
  {
    if |s| > 0 {
      KeepWordCharsOfSlug(s[1..]);
    }
  }

  /** Dropping non-word characters works character by character: a word
      character or '-' is kept, anything else is dropped. */
  lemma KeepWordCharsOfChar(c: char)
    ensures KeepWordChars([c]) == if IsWordChar(c) || c == '-' then [c] else []
  {
  }

  /** ... and the kept characters stay in their order. */
  lemma {:induction false} KeepWordCharsConcat(a: string, b: string)
    ensures KeepWordChars(a + b) == KeepWordChars(a) + KeepWordChars(b)
    decreases |a|
  {
    if |a| == 0 {
      assert a + b == b;
    } else {
      assert (a + b)[0] == a[0];
      assert (a + b)[1..] == a[1..] + b;
      KeepWordCharsConcat(a[1..], b);
    }
  }

  /** A prefix without whitespace passes through the hyphenation unchanged. */
  lemma {:induction false} HyphenateAfterWord(w: string, t: string)
    requires NoWhitespace(w)
    ensures HyphenateWhitespace(w + t) == w + HyphenateWhitespace(t)
    decreases |w|
  {
    if |w| == 0 {
      assert w + t == t;
    } else {
      var s := w + t;
      assert s[0] == w[0] && !IsWhitespace(s[0]);
      assert s[1..] == w[1..] + t;
      assert HyphenateWhitespace(s) == [w[0]] + HyphenateWhitespace(w[1..] + t);
      HyphenateAfterWord(w[1..], t);
      assert [w[0]] + w[1..] == w;
    }
  }

  /** Leading whitespace is trimmed up to the first other character. */
  lemma {:induction false} TrimStartOfRun(ws: string, t: string)
    requires forall i :: 0 <= i < |ws| ==> IsWhitespace(ws[i])
    requires t == [] || !IsWhitespace(t[0])
    ensures TrimStart(ws + t) == t
    decreases |ws|
  {
    if |ws| == 0 {
      assert ws + t == t;
    } else {
      assert (ws + t)[0] == ws[0];
      assert (ws + t)[1..] == ws[1..] + t;
      TrimStartOfRun(ws[1..], t);
    }
  }

  /** A leading whitespace run becomes a single '-'. */
  lemma HyphenateLeadingRun(ws: string, t: string)
    requires |ws| > 0 && forall i :: 0 <= i < |ws| ==> IsWhitespace(ws[i])
    requires t == [] || !IsWhitespace(t[0])
    ensures HyphenateWhitespace(ws + t) == "-" + HyphenateWhitespace(t)
  {
    var s := ws + t;
    assert s[0] == ws[0] && IsWhitespace(s[0]);
    TrimStartOfRun(ws, t);
    assert HyphenateWhitespace(s) == "-" + HyphenateWhitespace(TrimStart(s));
  }

  /** A whole whitespace run between two words becomes a single '-'. */
  lemma HyphenateRun(w: string, ws: string, t: string)
    requires NoWhitespace(w)
    requires |ws| > 0 && forall i :: 0 <= i < |ws| ==> IsWhitespace(ws[i])
    requires t == [] || !IsWhitespace(t[0])
    ensures HyphenateWhitespace(w + ws + t) == w + "-" + HyphenateWhitespace(t)
  {
    assert w + ws + t == w + (ws + t);
    HyphenateAfterWord(w, ws + t);
    HyphenateLeadingRun(ws, t);
    assert w + ("-" + HyphenateWhitespace(t)) == w + "-" + HyphenateWhitespace(t);
  }

  /** Lower-casing leaves text without upper case as it is. */
  lemma LowerAllOfLower(s: string)
    requires NoUpper(s)
    ensures LowerAll(s) == s
  {
  }

  /** Two slugs around whitespace have no upper case. */
  lemma NoUpperJoin(w1: string, ws: string, w2: string)
    requires IsSlug(w1) && IsSlug(w2)
    requires forall i :: 0 <= i < |ws| ==> IsWhitespace(ws[i])
    ensures NoUpper(w1 + ws + w2)
  {
    var s := w1 + ws + w2;
    forall i | 0 <= i < |s| ensures !IsUpper(s[i]) {
      if i < |w1| { assert s[i] == w1[i]; }
      else if i < |w1| + |ws| { assert s[i] == ws[i - |w1|]; }
      else { assert s[i] == w2[i - |w1| - |ws|]; }
    }
  }

  /** The last two steps of `slugFormat` on `w1 + ws + w2`. */
  lemma HyphenateAndKeepJoin(w1: string, ws: string, w2: string)
    requires IsSlug(w1) && IsSlug(w2) && |w2| > 0
    requires |ws| > 0 && forall i :: 0 <= i < |ws| ==> IsWhitespace(ws[i])
    ensures KeepWordChars(HyphenateWhitespace(w1 + ws + w2)) == w1 + "-" + w2
  {
    WordCharsFormSlug(w1);
    WordCharsFormSlug(w2);
    HyphenateWithoutWhitespace(w2);
    HyphenateRun(w1, ws, w2);
    KeepWordCharsConcat(w1 + "-", w2);
    KeepWordCharsConcat(w1, "-");
    KeepWordCharsOfSlug(w1);
    KeepWordCharsOfSlug(w2);
    KeepWordCharsOfChar('-');
  }

  /** Two slug words separated by whitespace come out joined by one '-'. */
  lemma SlugFormatJoinsWords(w1: string, ws: string, w2: string)
    requires IsSlug(w1) && IsSlug(w2) && |w1| > 0 && |w2| > 0
    requires |ws| > 0 && forall i :: 0 <= i < |ws| ==> IsWhitespace(ws[i])
    ensures SlugFormat(w1 + ws + w2) == w1 + "-" + w2
  {
    var s := w1 + ws + w2;
    NoUpperJoin(w1, ws, w2);
    LowerAllOfLower(s);
    assert s[0] == w1[0] && !IsWhitespace(s[0]);
    assert s[|s| - 1] == w2[|w2| - 1] && !IsWhitespace(s[|s| - 1]);
    assert TrimStart(s) == s;
    assert TrimEnd(s) == s;
    HyphenateAndKeepJoin(w1, ws, w2);
  }

  /** A slug is left unchanged by `slugFormat`. */
  lemma SlugFormatFixesSlugs(t: string)
    requires IsSlug(t)
    ensures SlugFormat(t) == t
  {
    assert LowerAll(t) == t;
    assert TrimStart(t) == t;
    assert TrimEnd(t) == t;
    HyphenateWithoutWhitespace(t);
    KeepWordCharsOfSlug(t);
  }

  /** `slugFormat` is idempotent. */
  lemma SlugFormatIdempotent(s: string)
    ensures SlugFormat(SlugFormat(s)) == SlugFormat(s)
  {
    SlugFormatFixesSlugs(SlugFormat(s));
  }

  // ---------------------------------------------------------------------------
  // handlePrismaError: known request error code to HTTP status and message
  // ---------------------------------------------------------------------------

  /** A known request error of the database client; `code` may be missing. */
  datatype KnownRequestError = KnownRequestError(code: Option<string>)

  datatype ErrorReply = ErrorReply(status: int, message: string)

  const KnownCodes: set<string> := {"P2002", "P2014", "P2003", "P2025"}

  /** The code is truthy: present and non-empty. */
  predicate HasCode(error: KnownRequestError) {
    error.code.Some? && error.code.value != ""
  }

  /** `handlePrismaError(error)`. */
  function HandlePrismaError(error: KnownRequestError): (r: ErrorReply)
    ensures r.status in {400, 404, 409, 500}
    ensures r.status == 409 <==> error.code == Some("P2002")
    ensures r.status == 404 <==> error.code == Some("P2025")
    ensures r.status == 400 <==> error.code == Some("P2014") || error.code == Some("P2003")
    ensures r.status == 500 <==> !HasCode(error) || error.code.value !in KnownCodes
    ensures HasCode(error) && error.code.value !in KnownCodes ==>
              r.message == "Unexpected error: " + error.code.value
    ensures !HasCode(error) ==> r.message == "An unexpected error occurred"
    ensures error.code == Some("P2002") ==> r == ErrorReply(409, "Unique constraint error")
    ensures error.code == Some("P2014") ==> r == ErrorReply(400, "Invalid ID provided")
    ensures error.code == Some("P2003") ==> r == ErrorReply(400, "Foreign key constraint failed")
    ensures error.code == Some("P2025") ==> r == ErrorReply(404, "Record not found")
  {
    if HasCode(error) then
      var code := error.code.value;
      if code == "P2002" then ErrorReply(409, "Unique constraint error")
      else if code == "P2014" then ErrorReply(400, "Invalid ID provided")
      else if code == "P2003" then ErrorReply(400, "Foreign key constraint failed")
      else if code == "P2025" then ErrorReply(404, "Record not found")
      else ErrorReply(500, "Unexpected error: " + code)
    else ErrorReply(500, "An unexpected error occurred")
  }

  /** Two unrecognised codes that draw the same reply are the same code: the
      reply names the code it could not classify. */
  lemma UnexpectedReplyNamesCode(a: KnownRequestError, b: KnownRequestError)
    requires HasCode(a) && a.code.value !in KnownCodes
    requires HasCode(b) && b.code.value !in KnownCodes
    requires HandlePrismaError(a) == HandlePrismaError(b)
    ensures a == b
  {
    var prefix := "Unexpected error: ";
    assert (prefix + a.code.value)[|prefix|..] == a.code.value;
    assert (prefix + b.code.value)[|prefix|..] == b.code.value;
  }

  // ---------------------------------------------------------------------------
  // formatDate: ISO timestamp text to display text
  // ---------------------------------------------------------------------------

  /** The replacement for one character: 'T' becomes a space, 'Z' disappears. */
  function ReplacedChar(c: char): string {
    if c == 'T' then " " else if c == 'Z' then "" else [c]
  }

  /** `.replace(/T|Z/g, m => m === 'T' ? ' ' : '')`. */
  function ReplaceTZ(s: string): (r: string)
    ensures 'T' !in r && 'Z' !in r
    ensures |r| <= |s|
  {
    if |s| == 0 then [] else ReplacedChar(s[0]) + ReplaceTZ(s[1..])
  }

  /** The text ends with a dot and exactly three digits after it. */
  predicate EndsWithMillis(s: string) {
    |s| >= 4 && s[|s| - 4] == '.' && IsDigit(s[|s| - 3]) && IsDigit(s[|s| - 2]) && IsDigit(s[|s| - 1])
  }

  /** `.replace(/\.\d{3}$/, '')`. */
  function StripMillis(s: string): (r: string)
    ensures EndsWithMillis(s) ==> s == r + s[|s| - 4..]
    ensures !EndsWithMillis(s) ==> r == s
  {
    if EndsWithMillis(s) then s[..|s| - 4] else s
  }

  /** `formatDate(dateStr)`; `None` is `undefined`. */
  function FormatDate(dateStr: Option<string>): (r: string)
    ensures dateStr.None? || dateStr == Some("") ==> r == "No Date"
    ensures dateStr.Some? && dateStr.value != "" ==>
              'T' !in r && 'Z' !in r && |r| <= |dateStr.value|
  {
    if dateStr.None? || dateStr.value == "" then "No Date"
    else StripMillis(ReplaceTZ(dateStr.value))
  }

  lemma {:induction false} ReplaceTZConcat(a: string, b: string)
    ensures ReplaceTZ(a + b) == ReplaceTZ(a) + ReplaceTZ(b)
    decreases |a|
  {
    if |a| == 0 {
      assert a + b == b;
    } else {
      assert (a + b)[0] == a[0];
      assert (a + b)[1..] == a[1..] + b;
      ReplaceTZConcat(a[1..], b);
    }
  }

  lemma {:induction false} ReplaceTZWithoutTZ(s: string)
    requires 'T' !in s && 'Z' !in s
    ensures ReplaceTZ(s) == s
    decreases |s|
  {
    if |s| > 0 {
      ReplaceTZWithoutTZ(s[1..]);
    }
  }

  predicate IsMillis(millis: string) {
    |millis| == 3 && forall i :: 0 <= i < 3 ==> IsDigit(millis[i])
  }

  lemma StripMillisOfSuffix(p: string, millis: string)
    requires IsMillis(millis)
    ensures StripMillis(p + "." + millis) == p
  {
    var s := p + "." + millis;
    assert s[|s| - 4] == '.' && s[|s| - 3] == millis[0] && s[|s| - 2] == millis[1] && s[|s| - 1] == millis[2];
    assert s[..|s| - 4] == p;
  }

  lemma ReplaceTZOfTimestamp(date: string, time: string, tail: string)
    requires 'T' !in date && 'Z' !in date && 'T' !in time && 'Z' !in time
    requires 'T' !in tail && 'Z' !in tail
    ensures ReplaceTZ(date + "T" + time + tail + "Z") == date + " " + time + tail
  {
    assert ReplaceTZ("T") == " ";
    assert ReplaceTZ("Z") == "";
    ReplaceTZWithoutTZ(date);
    ReplaceTZWithoutTZ(time);
    ReplaceTZWithoutTZ(tail);
    ReplaceTZConcat(date, "T");
    ReplaceTZConcat(date + "T", time);
    ReplaceTZConcat(date + "T" + time, tail);
    ReplaceTZConcat(date + "T" + time + tail, "Z");
  }

  /** A timestamp `date'T'time.mmm'Z'` is shown as `date time`. */
  lemma FormatDateOfTimestamp(date: string, time: string, millis: string)
    requires 'T' !in date && 'Z' !in date && 'T' !in time && 'Z' !in time
    requires IsMillis(millis)
    ensures FormatDate(Some(date + "T" + time + "." + millis + "Z")) == date + " " + time
  {
    var tail := "." + millis;
    assert forall i :: 0 <= i < |tail| ==> tail[i] != 'T' && tail[i] != 'Z' by {
      forall i | 0 <= i < |tail| ensures tail[i] != 'T' && tail[i] != 'Z' {
        if i > 0 { assert tail[i] == millis[i - 1]; }
      }
    }
    ReplaceTZOfTimestamp(date, time, tail);
    assert date + "T" + time + "." + millis + "Z" == date + "T" + time + tail + "Z";
    StripMillisOfSuffix(date + " " + time, millis);
    assert date + " " + time + tail == date + " " + time + "." + millis;
  }

  /** Text with no 'T', no 'Z' and no millisecond suffix is shown unchanged. */
  lemma FormatDateKeepsPlainText(s: string)
    requires s != "" && 'T' !in s && 'Z' !in s && !EndsWithMillis(s)
    ensures FormatDate(Some(s)) == s
  {
    ReplaceTZWithoutTZ(s);
  }

  // ---------------------------------------------------------------------------
  // getStatus / getText: stock classification against the reorder point
  // ---------------------------------------------------------------------------

  const DefaultReorderPoint: int := 10

  /** `parseInt(process.env.NEXT_PUBLIC_REORDER_POINT as string) || 10`: an
      unset variable reads as the text "undefined"; `NaN` and 0 fall back to 10. */
  function ReorderPoint(env: Option<string>): (r: int)
    ensures r != 0
    ensures env.None? ==> r == DefaultReorderPoint
    ensures var parsed := Decimal.JsParseInt(env.GetOr("undefined"));
            (parsed.None? || parsed == Some(0)) ==> r == DefaultReorderPoint
    ensures var parsed := Decimal.JsParseInt(env.GetOr("undefined"));
            parsed.Some? && parsed.value != 0 ==> r == parsed.value
  {
    Decimal.ParseIntWithoutDigits("undefined");
    var parsed := Decimal.JsParseInt(env.GetOr("undefined"));
    if parsed.None? || parsed.value == 0 then DefaultReorderPoint else parsed.value
  }

  /** A reorder point set to the decimal text of a non-zero integer is that integer. */
  lemma ReorderPointOfDecimal(n: int)
    requires n != 0
    ensures ReorderPoint(Some(Decimal.IntToString(n))) == n
  {
    Decimal.ParseIntOfIntToString(n);
  }

  /** A reorder point set to text that `parseInt` reads as `NaN` (its first
      character is not a space, a sign or a digit) falls back to 10. */
  lemma ReorderPointFallback(s: string)
    requires |s| > 0 && !IsWhitespace(s[0]) && s[0] != '-' && s[0] != '+' && !IsDigit(s[0])
    ensures ReorderPoint(Some(s)) == DefaultReorderPoint
  {
    Decimal.ParseIntWithoutDigits(s);
  }

  /** A reorder point set to "0" falls back to 10, since 0 is falsy. */
  lemma ReorderPointOfZero()
    ensures ReorderPoint(Some("0")) == DefaultReorderPoint
  {
    Decimal.ParseIntOfIntToString(0);
    assert Decimal.IntToString(0) == "0";
  }

  /** `getStatus(quantity)`; the lower band is bounded by the literal 10, not
      by the reorder point. */
  function GetStatus(quantity: int, reorderPoint: int := DefaultReorderPoint): (r: string)
    ensures r in {"success", "warning", "error"}
    ensures r == "success" <==> quantity > reorderPoint
    ensures r == "warning" <==> quantity <= reorderPoint && 0 < quantity <= 10
    ensures r == "error" <==> quantity <= reorderPoint && (quantity <= 0 || quantity > 10)
  {
    if quantity > reorderPoint then "success"
    else if quantity <= 10 && quantity > 0 then "warning"
    else if quantity <= 0 then "error"
    else "error"
  }

  /** `getText(quantity)`. */
  function GetText(quantity: int, reorderPoint: int := DefaultReorderPoint): (r: string)
    ensures r in {"Normal", "Low", "Out of Stock", "Unknown"}
    ensures r == "Normal" <==> quantity > reorderPoint
    ensures r == "Low" <==> quantity <= reorderPoint && 0 < quantity <= 10
    ensures r == "Out of Stock" <==> quantity <= reorderPoint && quantity <= 0
  {
    if quantity > reorderPoint then "Normal"
    else if quantity <= 10 && quantity > 0 then "Low"
    else if quantity <= 0 then "Out of Stock"
    else "Unknown"
  }

  /** The status and the text classify every quantity the same way. */
  lemma StatusAgreesWithText(quantity: int, reorderPoint: int)
    ensures GetStatus(quantity, reorderPoint) == "success" <==> GetText(quantity, reorderPoint) == "Normal"
    ensures GetStatus(quantity, reorderPoint) == "warning" <==> GetText(quantity, reorderPoint) == "Low"
    ensures GetStatus(quantity, reorderPoint) == "error" <==>
              GetText(quantity, reorderPoint) in {"Out of Stock", "Unknown"}
  {
  }

  /** 'Unknown' is the text exactly for quantities between 10 (exclusive) and a
      reorder point above 10 (inclusive); with the default point it never occurs. */
  lemma UnknownTextBand(quantity: int, reorderPoint: int)
    ensures GetText(quantity, reorderPoint) == "Unknown" <==> reorderPoint > 10 && 10 < quantity <= reorderPoint
    ensures GetText(quantity) != "Unknown"
  {
  }

  /** With a reorder point above 10, a quantity between the two is classified
      as an error with the text 'Unknown'. */
  lemma StatusGapExample()
    ensures GetStatus(15, 20) == "error" && GetText(15, 20) == "Unknown"
  {
  }

  /** The classification with the lower band bounded by the reorder point. */
  function GetStatusIntended(quantity: int, reorderPoint: int): (r: string)
    ensures r == "success" <==> quantity > reorderPoint
    ensures r == "warning" <==> 0 < quantity <= reorderPoint
    ensures r == "error" <==> quantity <= 0 && quantity <= reorderPoint
  {
    if quantity > reorderPoint then "success"
    else if quantity > 0 then "warning"
    else "error"
  }

  function GetTextIntended(quantity: int, reorderPoint: int): (r: string)
    ensures r in {"Normal", "Low", "Out of Stock"}
  {
    if quantity > reorderPoint then "Normal"
    else if quantity > 0 then "Low"
    else "Out of Stock"
  }

  /** The intended status and text correspond one to one and 'Unknown' never
      occurs; for reorder points up to 10 they agree with the code as written. */
  lemma IntendedClassification(quantity: int, reorderPoint: int)
    ensures GetStatusIntended(quantity, reorderPoint) == "success" <==> GetTextIntended(quantity, reorderPoint) == "Normal"
    ensures GetStatusIntended(quantity, reorderPoint) == "warning" <==> GetTextIntended(quantity, reorderPoint) == "Low"
    ensures GetStatusIntended(quantity, reorderPoint) == "error" <==> GetTextIntended(quantity, reorderPoint) == "Out of Stock"
    ensures reorderPoint <= 10 ==>
              GetStatusIntended(quantity, reorderPoint) == GetStatus(quantity, reorderPoint)
              && GetTextIntended(quantity, reorderPoint) == GetText(quantity, reorderPoint)
  {
  }

  // ---------------------------------------------------------------------------
  // getProvinceFullName: province code to Lao name
  // ---------------------------------------------------------------------------

  /** The province codes and their Lao full names. */
  const ProvinceMapping: map<string, string> := map[
      "VT" := "ນະຄອນຫຼວງວຽງຈັນ",
      "VI" := "ວຽງຈັນ",
      "BL" := "ບໍລິຄຳໄຊ",
      "XS" := "ໄຊສົມບູນ",
      "BK" := "ບໍ່ແກ້ວ",
      "HO" := "ຫົວພັນ",
      "LM" := "ຫຼວງນ້ຳທາ",
      "LP" := "ຫຼວງພະບາງ",
      "XA" := "ໄຊຍະບູລີ",
      "XI" := "ຊຽງຂວາງ",
      "AT" := "ອັດຕະປື",
      "CH" := "ຈຳປາສັກ",
      "KH" := "ຄຳມ່ວນ",
      "OU" := "ອຸດົມໄຊ",
      "PH" := "ຜົ້ງສາລີ",
      "SL" := "ສາລະວັນ",
      "SV" := "ສະຫວັນນະເຂດ",
      "XE" := "ເຊກອງ"
    ]

  const ProvinceCodes: set<string> := {"VT", "VI", "BL", "XS", "BK", "HO", "LM", "LP", "XA", "XI", "AT", "CH", "KH", "OU", "PH", "SL", "SV", "XE"}

  /** `provinceMapping[shortcut] || shortcut`. */
  function GetProvinceFullName(shortcut: string): (r: string)
    ensures shortcut in ProvinceMapping ==> r == ProvinceMapping[shortcut]
    ensures shortcut !in ProvinceMapping ==> r == shortcut
  {
    if shortcut in ProvinceMapping && ProvinceMapping[shortcut] != "" then ProvinceMapping[shortcut]
    else shortcut
  }

  /** The table lists exactly the eighteen codes. */
  lemma ProvinceMappingCodes()
    ensures ProvinceMapping.Keys == ProvinceCodes
  {
  }

  /** The name differs from its argument exactly when the argument is a listed code. */
  lemma ProvinceNameChangesExactlyCodes(shortcut: string)
    ensures GetProvinceFullName(shortcut) != shortcut <==> shortcut in ProvinceCodes
  {
  }

  /** Different codes name different provinces. */
  lemma ProvinceNamesDistinct(a: string, b: string)
    requires a in ProvinceCodes && b in ProvinceCodes && a != b
    ensures GetProvinceFullName(a) != GetProvinceFullName(b)
  {
  }
}
