/** The roster generator (parse-hospitals.py): CSV rows of the processed and
    the supplementary format become hospital records, and the standard and
    extended rosters are built from them. A row is a map from column name to
    text; `float` is a parameter. Python's string operations are modelled on
    ASCII text. */
module HospitalParser {
  import opened Common
  import opened Geo
  import opened Domain

  type Row = map<string, string>

  /** Python's `float(text)`: a number, or `None` where it raises ValueError. */
  type ParseFloat = string -> Option<real>

  /** The two CSV layouts; the parser's `processed` flag picks one. */
  datatype Format = Processed | Supplementary

  /** The seven metadata fields of the supplementary layout. */
  datatype Metadata = Metadata(
    phone: string, address: string, state: string, zip: string,
    county: string, owner: string, status: string)

  /** A parsed record: the seven hospital fields and, for the supplementary
      layout only, the metadata. */
  datatype ParsedHospital = ParsedHospital(base: Hospital, metadata: Option<Metadata>)

  /** An entry of the extended roster: the hospital fields and the metadata
      fields it carries. */
  datatype ExtendedHospital = ExtendedHospital(
    base: Hospital,
    phone: Option<string>, address: Option<string>, state: Option<string>, zip: Option<string>,
    county: Option<string>, owner: Option<string>, status: Option<string>)

  /** `row.get(key, default)`. */
  function Get(row: Row, key: string, default: string): string {
    if key in row then row[key] else default
  }

  // ---------------------------------------------------------------------
  // String operations

  /** The ASCII characters `str.strip()` removes. */
  predicate IsSpace(c: char) {
    c == ' ' || 9 <= c as int <= 13 || 28 <= c as int <= 31
  }

  function TrimStart(s: string): (r: string)
    ensures |r| <= |s| && r == s[|s| - |r|..]
    ensures r == [] || !IsSpace(r[0])
    ensures forall k :: 0 <= k < |s| - |r| ==> IsSpace(s[k])
  {
    if s != [] && IsSpace(s[0]) then TrimStart(s[1..]) else s
  }

  function TrimEnd(s: string): (r: string)
    ensures |r| <= |s| && r == s[..|r|]
    ensures r == [] || !IsSpace(r[|r| - 1])
    ensures forall k :: |r| <= k < |s| ==> IsSpace(s[k])
  {
    if s != [] && IsSpace(s[|s| - 1]) then TrimEnd(s[..|s| - 1]) else s
  }

  /** `str.strip()`. */
  function Strip(s: string): string {
    TrimEnd(TrimStart(s))
  }

  function UpperChar(c: char): char {
    if 'a' <= c <= 'z' then (c as int - 32) as char else c
  }

  function LowerChar(c: char): char {
    if 'A' <= c <= 'Z' then (c as int + 32) as char else c
  }

  function Upper(s: string): (r: string)
    ensures |r| == |s| && forall k :: 0 <= k < |s| ==> r[k] == UpperChar(s[k])
  {
    seq(|s|, k requires 0 <= k < |s| => UpperChar(s[k]))
  }

  function Lower(s: string): (r: string)
    ensures |r| == |s| && forall k :: 0 <= k < |s| ==> r[k] == LowerChar(s[k])
  {
    seq(|s|, k requires 0 <= k < |s| => LowerChar(s[k]))
  }

  /** `s.replace(pat, rep)`: every non-overlapping occurrence, left to right.
      Every character of the result comes from `s` or from `rep`. */
  function Replace(s: string, pat: string, rep: string): (r: string)
    requires pat != []
    ensures forall c :: c in r ==> c in s || c in rep
    decreases |s|
  {
    if |s| < |pat| then s
    else if s[..|pat|] == pat then rep + Replace(s[|pat|..], pat, rep)
    else [s[0]] + Replace(s[1..], pat, rep)
  }

  /** Replacing a character by text without it leaves none of it. */
  lemma {:induction false} ReplaceRemoves(s: string, c: char, rep: string)
    requires c !in rep
    ensures c !in Replace(s, [c], rep)
  {
    if |s| >= 1 {
      ReplaceRemoves(s[1..], c, rep);
    }
  }

  /** `s.split(' ')[0]`: the text before the first space. */
  function FirstToken(s: string): (r: string)
    ensures |r| <= |s| && r == s[..|r|] && ' ' !in r
    ensures |r| < |s| ==> s[|r|] == ' '
  {
    if s == [] || s[0] == ' ' then [] else [s[0]] + FirstToken(s[1..])
  }

  predicate AllDigits(s: string) {
    forall k :: 0 <= k < |s| ==> '0' <= s[k] <= '9'
  }

  /** `str.isdigit()`. */
  predicate IsDigits(s: string) {
    |s| > 0 && AllDigits(s)
  }

  /** The decimal value of a digit string. */
  function DigitsValue(s: string): (n: int)
    requires AllDigits(s)
    ensures n >= 0
  {
    if s == [] then 0 else 10 * DigitsValue(s[..|s| - 1]) + (s[|s| - 1] as int - '0' as int)
  }

  /** `int(text)`: surrounding whitespace, an optional sign, then digits;
      `None` where Python raises ValueError. */
  function PyInt(text: string): (r: Option<int>)
    ensures IsDigits(Strip(text)) ==> r == Some(DigitsValue(Strip(text)))
    ensures r.Some? <==> var t := Strip(text);
      IsDigits(t) || (|t| > 1 && (t[0] == '+' || t[0] == '-') && AllDigits(t[1..]))
    ensures r.Some? && r.value < 0 ==> Strip(text)[0] == '-'
  {
    var t := Strip(text);
    if IsDigits(t) then Some(DigitsValue(t))
    else if |t| > 1 && t[0] == '+' && AllDigits(t[1..]) then Some(DigitsValue(t[1..]))
    else if |t| > 1 && t[0] == '-' && AllDigits(t[1..]) then Some(-DigitsValue(t[1..]))
    else None
  }

  // ---------------------------------------------------------------------
  // Field conversions

  /** `min(max(n, 1), 5)`. */
  function Clamp(n: int): (r: TraumaLevel)
    ensures 1 <= n <= 5 ==> r == n
    ensures n < 1 ==> r == 1
    ensures n > 5 ==> r == 5
  {
    Min(Max(n, 1), 5)
  }

  /** The processed layout's trauma text: "Level " removed, the first word
      read as a number when it is all digits, else 3. */
  function ProcessedTrauma(text: string): TraumaLevel {
    var t := FirstToken(Replace(text, "Level ", ""));
    Clamp(if IsDigits(t) then DigitsValue(t) else 3)
  }

  /** The supplementary layout's trauma text: "LEVEL " removed, then II or 2
      is level 2, IV or 4 is level 4 and anything else level 3. */
  function SupplementaryTrauma(text: string): (r: TraumaLevel)
    ensures 2 <= r <= 4
  {
    var t := Replace(text, "LEVEL ", "");
    Clamp(if t == "II" || t == "2" then 2 else if t == "IV" || t == "4" then 4 else 3)
  }

  /** `text.strip().upper() == 'Y'`. */
  predicate HelipadFlag(text: string) {
    Upper(Strip(text)) == "Y"
  }

  /** The id: the name lower-cased, spaces turned into '-', dots dropped. */
  function Slug(name: string): string {
    Replace(Replace(Lower(name), " ", "-"), ".", "")
  }

  /** The processed layout's bed count: the number when all digits, else 50. */
  function ProcessedCapacity(beds: string): (n: int)
    ensures n >= 0
    ensures IsDigits(beds) ==> n == DigitsValue(beds)
    ensures !IsDigits(beds) ==> n == 50
  {
    if IsDigits(beds) then DigitsValue(beds) else 50
  }

  /** The supplementary layout's bed count: `int(...)`, with 50 for text
      that does not parse and for a negative number. */
  function SupplementaryCapacity(beds: string): (n: int)
    ensures n >= 0
    ensures PyInt(beds).Some? && PyInt(beds).value >= 0 ==> n == PyInt(beds).value
    ensures PyInt(beds).None? || PyInt(beds).value < 0 ==> n == 50
  {
    match PyInt(beds)
    case Some(v) => if v < 0 then 50 else v
    case None => 50
  }

  /** The columns a row must have and the coordinates that must parse;
      a row without them raises KeyError or ValueError. */
  predicate Convertible(format: Format, row: Row, parseFloat: ParseFloat) {
    match format
    case Processed =>
      && "TraumaLevel" in row && "Hospital" in row && "City" in row && "Beds" in row
      && "Y" in row && parseFloat(row["Y"]).Some?
      && "X" in row && parseFloat(row["X"]).Some?
    case Supplementary =>
      && "NAME" in row && "CITY" in row
      && "LATITUDE" in row && parseFloat(row["LATITUDE"]).Some?
      && "LONGITUDE" in row && parseFloat(row["LONGITUDE"]).Some?
  }

  /** The hospital fields of a processed row. */
  function ProcessedRecord(row: Row, parseFloat: ParseFloat): Hospital
    requires Convertible(Processed, row, parseFloat)
  {
    Hospital(Slug(row["Hospital"]), Strip(row["Hospital"]), Strip(row["City"]),
             Coordinate(parseFloat(row["Y"]).value, parseFloat(row["X"]).value),
             HelipadFlag(Get(row, "Helipad", "N")),
             ProcessedTrauma(row["TraumaLevel"]),
             ProcessedCapacity(row["Beds"]))
  }

  /** The hospital fields of a supplementary row. */
  function SupplementaryRecord(row: Row, parseFloat: ParseFloat): Hospital
    requires Convertible(Supplementary, row, parseFloat)
  {
    Hospital(Slug(row["NAME"]), Strip(row["NAME"]), Strip(row["CITY"]),
             Coordinate(parseFloat(row["LATITUDE"]).value, parseFloat(row["LONGITUDE"]).value),
             HelipadFlag(Get(row, "HELIPAD", "N")),
             SupplementaryTrauma(Get(row, "TRAUMA", "LEVEL III")),
             SupplementaryCapacity(Get(row, "BEDS", "50")))
  }

  /** The metadata of a supplementary row, stripped, with its defaults. */
  function SupplementaryMetadata(row: Row): Metadata {
    Metadata(Strip(Get(row, "TELEPHONE", "")), Strip(Get(row, "ADDRESS", "")), Strip(Get(row, "STATE", "AK")),
             Strip(Get(row, "ZIP", "")), Strip(Get(row, "COUNTY", "")), Strip(Get(row, "OWNER", "")),
             Strip(Get(row, "STATUS", "OPEN")))
  }

  /** One row of either layout, or `None` for a row the parser skips. */
  function ConvertRow(format: Format, row: Row, parseFloat: ParseFloat): (r: Option<ParsedHospital>)
    ensures r.Some? <==> Convertible(format, row, parseFloat)
    ensures r.Some? ==> r.value.base.capacity >= 0
    ensures r.Some? ==> (r.value.metadata.Some? <==> format.Supplementary?)
  {
    if !Convertible(format, row, parseFloat) then None
    else match format
      case Processed => Some(ParsedHospital(ProcessedRecord(row, parseFloat), None))
      case Supplementary => Some(ParsedHospital(SupplementaryRecord(row, parseFloat), Some(SupplementaryMetadata(row))))
  }

  // ---------------------------------------------------------------------
  // Properties of the field conversions

  /** An id holds no space and no dot. */
  lemma SlugClean(name: string)
    ensures ' ' !in Slug(name) && '.' !in Slug(name)
  {
    var dashed := Replace(Lower(name), " ", "-");
    ReplaceRemoves(Lower(name), ' ', "-");
    ReplaceRemoves(dashed, '.', "");
  }

  /** The helipad flag is set exactly when the stripped text is "Y" or "y". */
  lemma HelipadIff(text: string)
    ensures HelipadFlag(text) <==> Strip(text) == "Y" || Strip(text) == "y"
  {
    var t := Strip(text);
    if |t| == 1 {
      assert Upper(t) == [UpperChar(t[0])];
      assert t == [t[0]];
    }
  }

  /** A character other than 'L' can not start "Level ", so it is kept. */
  lemma ReplaceHeadKept(c: char, rest: string)
    requires c != 'L'
    ensures Replace([c] + rest, "Level ", "") == [c] + Replace(rest, "Level ", "")
  {
    var s := [c] + rest;
    assert s[1..] == rest;
    if |s| >= 6 {
      assert s[..6][0] == c;
    }
  }

  /** "Level d", alone or followed by a space and more words, gives level d
      for a digit d from 1 to 5 and the nearer bound for 0 and 6 to 9. */
  lemma ProcessedTraumaDigit(d: char, rest: string)
    requires '0' <= d <= '9'
    requires rest == [] || rest[0] == ' '
    ensures ProcessedTrauma("Level " + [d] + rest) == Clamp(d as int - '0' as int)
  {
    var tail := Replace(rest, "Level ", "");
    ReplaceLevelPrefix(d, rest);
    if rest != [] {
      assert rest == [' '] + rest[1..];
      ReplaceHeadKept(' ', rest[1..]);
    }
    TokenOfDigit(d, tail);
    assert [d][..0] == [];
    assert IsDigits([d]) && DigitsValue([d]) == d as int - '0' as int;
  }

  lemma ReplaceLevelPrefix(d: char, rest: string)
    requires '0' <= d <= '9'
    ensures Replace("Level " + [d] + rest, "Level ", "") == [d] + Replace(rest, "Level ", "")
  {
    var s := "Level " + [d] + rest;
    assert s[..6] == "Level ";
    assert s[6..] == [d] + rest;
    ReplaceHeadKept(d, rest);
  }

  lemma TokenOfDigit(d: char, tail: string)
    requires d != ' '
    requires tail == [] || tail[0] == ' '
    ensures FirstToken([d] + tail) == [d]
  {
    assert ([d] + tail)[1..] == tail;
  }

  /** A trauma text that is not a number reads as level 3: "Level II"
      gives 3, and so does "Level I". */
  lemma ProcessedTraumaRoman()
    ensures ProcessedTrauma("Level II") == 3
    ensures ProcessedTrauma("Level I") == 3
  {
    assert "Level II"[..6] == "Level ";
    assert Replace("Level II", "Level ", "") == "II" by {
      assert "Level II"[6..] == "II";
    }
    assert "Level I"[..6] == "Level ";
    assert Replace("Level I", "Level ", "") == "I" by {
      assert "Level I"[6..] == "I";
    }
    assert FirstToken("II") == "II" by {
      assert "II"[1..] == "I";
      assert "I"[1..] == [];
    }
    assert FirstToken("I") == "I" by {
      assert "I"[1..] == [];
    }
  }

  lemma SupplementaryLevel(text: string, t: string)
    requires |text| >= 6 && text[..6] == "LEVEL " && text[6..] == t && |t| < 6
    ensures Replace(text, "LEVEL ", "") == t
  {
  }

  /** The supplementary texts map to their levels: LEVEL II to 2, LEVEL IV
      to 4, and LEVEL III and LEVEL I to 3. */
  lemma SupplementaryTraumaLevels()
    ensures SupplementaryTrauma("LEVEL II") == 2
    ensures SupplementaryTrauma("LEVEL IV") == 4
    ensures SupplementaryTrauma("LEVEL III") == 3
    ensures SupplementaryTrauma("LEVEL I") == 3
  {
    SupplementaryLevel("LEVEL II", "II");
    SupplementaryLevel("LEVEL IV", "IV");
    SupplementaryLevel("LEVEL III", "III");
    SupplementaryLevel("LEVEL I", "I");
  }

  // ---------------------------------------------------------------------
  // The parse loops

  /** The records a parse keeps, in row order: one per row that converts. */
  function Kept(rows: seq<Row>, convert: Row -> Option<ParsedHospital>): (r: seq<ParsedHospital>)
    ensures |r| <= |rows|
  {
    if rows == [] then []
    else Kept(rows[..|rows| - 1], convert) + KeptOf(rows[|rows| - 1], convert)
  }

  /** What one row adds: its record, or nothing. */
  function KeptOf(row: Row, convert: Row -> Option<ParsedHospital>): (r: seq<ParsedHospital>)
    ensures |r| <= 1
  {
    if convert(row).Some? then [convert(row).value] else []
  }

  /** The row conversion of a layout, as a value. */
  function Converter(format: Format, parseFloat: ParseFloat): Row -> Option<ParsedHospital> {
    row => ConvertRow(format, row, parseFloat)
  }

  lemma {:induction false} KeptAppend(a: seq<Row>, b: seq<Row>, convert: Row -> Option<ParsedHospital>)
    ensures Kept(a + b, convert) == Kept(a, convert) + Kept(b, convert)
    decreases |b|
  {
    if b == [] {
      assert a + b == a;
    } else {
      var n := |b| - 1;
      var last := KeptOf(b[n], convert);
      assert (a + b)[..|a + b| - 1] == a + b[..n];
      assert (a + b)[|a + b| - 1] == b[n];
      calc {
        Kept(a + b, convert);
        Kept(a + b[..n], convert) + last;
        { KeptAppend(a, b[..n], convert); }
        (Kept(a, convert) + Kept(b[..n], convert)) + last;
        Kept(a, convert) + (Kept(b[..n], convert) + last);
        Kept(a, convert) + Kept(b, convert);
      }
    }
  }

  /** A row that fails is skipped and the rows after it are still parsed. */
  lemma SkipsBadRow(a: seq<Row>, row: Row, b: seq<Row>, convert: Row -> Option<ParsedHospital>)
    requires convert(row).None?
    ensures Kept(a + [row] + b, convert) == Kept(a, convert) + Kept(b, convert)
  {
    var front := a + [row];
    KeptAppend(front, b, convert);
    assert front[..|front| - 1] == a;
    assert Kept(front, convert) == Kept(a, convert) + KeptOf(row, convert);
    assert KeptOf(row, convert) == [];
    assert Kept(front, convert) == Kept(a, convert);
  }

  /** Every kept record is the conversion of a row, and every row that
      converts gives a kept record. */
  lemma {:induction false} KeptExactly(rows: seq<Row>, convert: Row -> Option<ParsedHospital>)
    ensures forall h :: h in Kept(rows, convert) ==> exists row :: row in rows && convert(row) == Some(h)
    ensures forall row :: row in rows && convert(row).Some? ==> convert(row).value in Kept(rows, convert)
  {
    if rows != [] {
      var n := |rows| - 1;
      KeptExactly(rows[..n], convert);
      forall row | row in rows[..n]
        ensures row in rows
      {
      }
      forall row | row in rows
        ensures row in rows[..n] || row == rows[n]
      {
        var k :| 0 <= k < |rows| && rows[k] == row;
        if k < n {
          assert rows[..n][k] == row;
        }
      }
    }
  }

  /** `parse_processed_csv` and `parse_supplementary_csv`: the loop over
      the rows, skipping any row that raises. */
  method ParseCsv(rows: seq<Row>, format: Format, parseFloat: ParseFloat) returns (hospitals: seq<ParsedHospital>)
    ensures hospitals == Kept(rows, Converter(format, parseFloat))
  {
    hospitals := [];
    for i := 0 to |rows|
      invariant hospitals == Kept(rows[..i], Converter(format, parseFloat))
    {
      assert rows[..i + 1][..i] == rows[..i];
      var h := ConvertRow(format, rows[i], parseFloat);
      if h.None? {
        continue;
      }
      hospitals := hospitals + [h.value];
    }
    assert rows[..|rows|] == rows;
  }

  // ---------------------------------------------------------------------
  // The generators

  /** The ids of a roster. */
  function Ids(hs: seq<Hospital>): set<string> {
    set k | 0 <= k < |hs| :: hs[k].id
  }

  lemma IdsSnoc(hs: seq<Hospital>, h: Hospital)
    ensures Ids(hs + [h]) == Ids(hs) + {h.id}
  {
    var t := hs + [h];
    assert t[|hs|].id == h.id;
    forall id | id in Ids(hs)
      ensures id in Ids(t)
    {
      var k :| 0 <= k < |hs| && hs[k].id == id;
      assert t[k] == hs[k];
    }
  }

  /** No entry before position k has the id at k. */
  predicate IsFirst(hs: seq<Hospital>, k: int)
    requires 0 <= k < |hs|
  {
    forall m :: 0 <= m < k ==> hs[m].id != hs[k].id
  }

  /** The positions whose id does not occur earlier, in increasing order. */
  function FirstIndices(hs: seq<Hospital>): (r: seq<nat>)
    ensures forall p :: 0 <= p < |r| ==> r[p] < |hs|
    ensures forall p, q :: 0 <= p < q < |r| ==> r[p] < r[q]
  {
    if hs == [] then []
    else
      var n := |hs| - 1;
      if IsFirst(hs, n) then FirstIndices(hs[..n]) + [n] else FirstIndices(hs[..n])
  }

  /** A position is listed exactly when it holds the first entry of its id. */
  lemma {:induction false} FirstIndicesExact(hs: seq<Hospital>)
    ensures forall k :: 0 <= k < |hs| ==> (k in FirstIndices(hs) <==> IsFirst(hs, k))
  {
    if hs != [] {
      var n := |hs| - 1;
      FirstIndicesExact(hs[..n]);
      forall k | 0 <= k < n
        ensures IsFirst(hs[..n], k) <==> IsFirst(hs, k)
      {
        assert forall m :: 0 <= m <= k ==> hs[..n][m] == hs[m];
      }
    }
  }

  /** The roster with each id once: the first entry with it, in input order. */
  function FirstById(hs: seq<Hospital>): (r: seq<Hospital>)
    ensures |r| == |FirstIndices(hs)|
    ensures forall p :: 0 <= p < |r| ==> r[p] == hs[FirstIndices(hs)[p]]
  {
    var idx := FirstIndices(hs);
    seq(|idx|, p requires 0 <= p < |idx| => hs[idx[p]])
  }

  lemma FirstByIdStep(hs: seq<Hospital>)
    requires hs != []
    ensures var n := |hs| - 1;
      FirstById(hs) == FirstById(hs[..n]) + (if IsFirst(hs, n) then [hs[n]] else [])
  {
    var n := |hs| - 1;
    var front := FirstIndices(hs[..n]);
    assert forall p :: 0 <= p < |front| ==> hs[..n][front[p]] == hs[front[p]];
  }

  /** No id appears twice in the deduplicated roster. */
  lemma FirstByIdDistinct(hs: seq<Hospital>)
    ensures var r := FirstById(hs);
      forall p, q :: 0 <= p < q < |r| ==> r[p].id != r[q].id
  {
    var r := FirstById(hs);
    var idx := FirstIndices(hs);
    FirstIndicesExact(hs);
    forall p, q | 0 <= p < q < |r|
      ensures r[p].id != r[q].id
    {
      assert idx[q] in idx;
    }
  }

  /** Every entry of the deduplicated roster is the first of its id in the
      input, and every first entry of the input is in it. */
  lemma FirstByIdFirsts(hs: seq<Hospital>)
    ensures forall p :: 0 <= p < |FirstById(hs)| ==> IsFirst(hs, FirstIndices(hs)[p])
    ensures forall k :: 0 <= k < |hs| && IsFirst(hs, k) ==> hs[k] in FirstById(hs)
  {
    var idx := FirstIndices(hs);
    FirstIndicesExact(hs);
    forall p | 0 <= p < |FirstById(hs)|
      ensures IsFirst(hs, idx[p])
    {
      assert idx[p] in idx;
    }
    forall k | 0 <= k < |hs| && IsFirst(hs, k)
      ensures hs[k] in FirstById(hs)
    {
      var p :| 0 <= p < |idx| && idx[p] == k;
      assert FirstById(hs)[p] == hs[k];
    }
  }

  /** Every id of the input appears in the deduplicated roster. */
  lemma {:induction false} FirstByIdCovers(hs: seq<Hospital>, k: nat)
    requires k < |hs|
    ensures exists h :: h in FirstById(hs) && h.id == hs[k].id
    decreases k
  {
    if IsFirst(hs, k) {
      FirstByIdFirsts(hs);
    } else {
      var m :| 0 <= m < k && hs[m].id == hs[k].id;
      FirstByIdCovers(hs, m);
    }
  }

  /** The seven base fields of each record (`generate_standard_typescript`). */
  method GenerateStandard(hospitals: seq<ParsedHospital>) returns (base: seq<Hospital>)
    ensures |base| == |hospitals|
    ensures forall i :: 0 <= i < |base| ==> base[i] == hospitals[i].base
  {
    base := [];
    for i := 0 to |hospitals|
      invariant |base| == i
      invariant forall k :: 0 <= k < i ==> base[k] == hospitals[k].base
    {
      base := base + [hospitals[i].base];
    }
  }

  /** A metadata field as the extended roster copies it: only when non-empty. */
  function NonEmpty(v: string): (r: Option<string>)
    ensures r.Some? <==> v != ""
    ensures r.Some? ==> r.value == v
  {
    if v == "" then None else Some(v)
  }

  /** An extended entry: the base fields and each metadata field the record
      has with non-empty text. */
  function Extend(h: ParsedHospital): (r: ExtendedHospital)
    ensures r.base == h.base
    ensures h.metadata.None? ==> r == ExtendedHospital(h.base, None, None, None, None, None, None, None)
  {
    match h.metadata
    case None => ExtendedHospital(h.base, None, None, None, None, None, None, None)
    case Some(m) =>
      ExtendedHospital(h.base, NonEmpty(m.phone), NonEmpty(m.address), NonEmpty(m.state), NonEmpty(m.zip),
                       NonEmpty(m.county), NonEmpty(m.owner), NonEmpty(m.status))
  }

  function Bases(hospitals: seq<ParsedHospital>): (r: seq<Hospital>)
    ensures |r| == |hospitals| && forall i :: 0 <= i < |r| ==> r[i] == hospitals[i].base
  {
    seq(|hospitals|, i requires 0 <= i < |hospitals| => hospitals[i].base)
  }

  /** One step of the generator's loop: the base roster grows by the entry
      when its id is new. */
  lemma ExtendedStep(all: seq<Hospital>, i: nat, seenIds: set<string>)
    requires i < |all| && seenIds == Ids(all[..i])
    ensures FirstById(all[..i + 1]) ==
      FirstById(all[..i]) + (if all[i].id !in seenIds then [all[i]] else [])
    ensures Ids(all[..i + 1]) == seenIds + {all[i].id}
  {
    var t := all[..i + 1];
    assert t[..i] == all[..i];
    FirstByIdStep(t);
    assert all[..i + 1] == all[..i] + [all[i]];
    IdsSnoc(all[..i], all[i]);
    if !IsFirst(t, i) {
      var m :| 0 <= m < i && t[m].id == t[i].id;
      assert all[..i][m] == t[m];
    }
  }

  /** `generate_extended_typescript`: the base roster keeps the first record
      of each id, the extended roster has one entry per record. */
  method GenerateExtended(hospitals: seq<ParsedHospital>) returns (base: seq<Hospital>, extended: seq<ExtendedHospital>)
    ensures base == FirstById(Bases(hospitals))
    ensures |extended| == |hospitals|
    ensures forall i :: 0 <= i < |extended| ==> extended[i] == Extend(hospitals[i])
  {
    ghost var all := Bases(hospitals);
    base, extended := [], [];
    var seenIds: set<string> := {};
    for i := 0 to |hospitals|
      invariant base == FirstById(all[..i])
      invariant seenIds == Ids(all[..i])
      invariant |extended| == i
      invariant forall k :: 0 <= k < i ==> extended[k] == Extend(hospitals[k])
    {
      var h := hospitals[i];
      ExtendedStep(all, i, seenIds);
      if h.base.id !in seenIds {
        base := base + [h.base];
        seenIds := seenIds + {h.base.id};
      }
      extended := extended + [Extend(h)];
    }
    assert all[..|hospitals|] == all;
  }

  /** A supplementary record without a STATE or STATUS column is extended
      with the defaults "AK" and "OPEN", and one without a TELEPHONE column
      carries no phone. */
  lemma ExtendedDefaults(row: Row, base: Hospital)
    requires "STATE" !in row && "STATUS" !in row && "TELEPHONE" !in row
    ensures var e := Extend(ParsedHospital(base, Some(SupplementaryMetadata(row))));
      e.state == Some("AK") && e.status == Some("OPEN") && e.phone == None
  {
    DefaultState(row);
    DefaultStatus(row);
    DefaultPhone(row);
    ExtendDefaultMetadata(SupplementaryMetadata(row), base);
  }

  lemma ExtendDefaultMetadata(m: Metadata, base: Hospital)
    requires m.state == "AK" && m.status == "OPEN" && m.phone == ""
    ensures var e := Extend(ParsedHospital(base, Some(m)));
      e.state == Some("AK") && e.status == Some("OPEN") && e.phone == None
  {
  }

  lemma DefaultState(row: Row)
    requires "STATE" !in row
    ensures SupplementaryMetadata(row).state == "AK"
  {
    StripWord("AK");
  }

  lemma DefaultStatus(row: Row)
    requires "STATUS" !in row
    ensures SupplementaryMetadata(row).status == "OPEN"
  {
    StripWord("OPEN");
  }

  lemma DefaultPhone(row: Row)
    requires "TELEPHONE" !in row
    ensures SupplementaryMetadata(row).phone == ""
  {
  }

  /** Text without surrounding whitespace is left as it is by `strip`. */
  lemma StripWord(s: string)
    requires s != [] && !IsSpace(s[0]) && !IsSpace(s[|s| - 1])
    ensures Strip(s) == s
  {
  }

  /** A processed record carries no metadata, so its extended entry is the
      base record alone. */
  lemma ProcessedNoMetadata(row: Row, parseFloat: ParseFloat)
    requires Convertible(Processed, row, parseFloat)
    ensures var h := ConvertRow(Processed, row, parseFloat).value;
      Extend(h) == ExtendedHospital(h.base, None, None, None, None, None, None, None)
  {
  }
}
