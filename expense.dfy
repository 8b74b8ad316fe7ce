/**
  The stored expense record and the rules its schema enforces on save:
  required fields, `trim` on the two text fields, the length limits and the
  lower bound on the amount.
*/
module ExpenseModel {
  import opened Calendar

  /**
    A stored expense. Amounts are whole cents; `createdAt` and `updatedAt`
    are the timestamps the schema maintains itself.
  */
  datatype Expense = Expense(
    description: string,
    amount: int,
    category: string,
    date: DateTime,
    createdAt: DateTime,
    updatedAt: DateTime)

  const MaxDescriptionLength := 200
  const MaxCategoryLength := 50

  /** The characters `String.prototype.trim` removes: WhiteSpace and LineTerminator. */
  predicate IsJsWhiteSpace(c: char) {
    var n := c as int;
    // tab, vertical tab, form feed, space, no-break space, byte order mark
    n == 0x09 || n == 0x0B || n == 0x0C || n == 0x20 || n == 0xA0 || n == 0xFEFF
    // the other space separators
    || n == 0x1680 || (0x2000 <= n <= 0x200A) || n == 0x202F || n == 0x205F || n == 0x3000
    // line terminators
    || n == 0x0A || n == 0x0D || n == 0x2028 || n == 0x2029
  }

  predicate IsBlank(s: string) {
    forall i :: 0 <= i < |s| ==> IsJsWhiteSpace(s[i])
  }

  function TrimStart(s: string): (r: string)
    ensures |r| <= |s| && r == s[|s| - |r|..]
    ensures IsBlank(s[..|s| - |r|])
    ensures r == [] || !IsJsWhiteSpace(r[0])
  {
    if s != [] && IsJsWhiteSpace(s[0]) then
      var r := TrimStart(s[1..]);
      assert s[..|s| - |r|] == [s[0]] + s[1..][..|s| - 1 - |r|];
      r
    else s
  }

  function TrimEnd(s: string): (r: string)
    ensures |r| <= |s| && r == s[..|r|]
    ensures IsBlank(s[|r|..])
    ensures r == [] || !IsJsWhiteSpace(r[|r| - 1])
  {
    if s != [] && IsJsWhiteSpace(s[|s| - 1]) then
      var r := TrimEnd(s[..|s| - 1]);
      assert s[|r|..] == s[..|s| - 1][|r|..] + [s[|s| - 1]];
      r
    else s
  }

  /**
    `s.trim()`: the text between the leading and the trailing white space.
    The result starts and ends with a character that is not white space,
    everything cut off on either side is white space, and nothing is left
    exactly when the text is all white space.
  */
  function Trim(s: string): (r: string)
    ensures |r| <= |s|
    ensures r == [] || (!IsJsWhiteSpace(r[0]) && !IsJsWhiteSpace(r[|r| - 1]))
    ensures r == [] <==> IsBlank(s)
  {
    CutPiece(s, |s| - |TrimStart(s)|, TrimStart(s), TrimEnd(TrimStart(s)));
    TrimEnd(TrimStart(s))
  }

  /**
    What `trim` keeps is the piece of the text that starts at `a`, and
    everything it cuts off on either side is white space.
  */
  lemma {:induction false} TrimCutsBlanks(s: string) returns (a: nat)
    ensures a + |Trim(s)| <= |s| && Trim(s) == s[a..a + |Trim(s)|]
    ensures IsBlank(s[..a]) && IsBlank(s[a + |Trim(s)|..])
  {
    var t := TrimStart(s);
    var r := TrimEnd(t);
    assert Trim(s) == r;
    a := |s| - |t|;
    CutPiece(s, a, t, r);
  }

  /**
    Cutting white space off the front of `s` (leaving `t`) and then off the
    back of `t` (leaving `r`) keeps a piece of `s` and cuts only white space.
  */
  lemma {:induction false} CutPiece(s: string, a: nat, t: string, r: string)
    requires a <= |s| && t == s[a..] && IsBlank(s[..a]) && (t == [] || !IsJsWhiteSpace(t[0]))
    requires |r| <= |t| && r == t[..|r|] && IsBlank(t[|r|..])
    ensures a + |r| <= |s| && r == s[a..a + |r|]
    ensures IsBlank(s[a + |r|..])
    ensures r == [] <==> IsBlank(s)
  {
    assert s[a + |r|..] == t[|r|..];
    BlankSplit(s, a);
    BlankSplit(t, |r|);
    if r != [] {
      assert r[0] == s[a];
    }
  }

  lemma {:induction false} BlankSplit(s: string, a: nat)
    requires a <= |s|
    ensures IsBlank(s) <==> IsBlank(s[..a]) && IsBlank(s[a..])
  {
    if IsBlank(s[..a]) && IsBlank(s[a..]) {
      forall i | 0 <= i < |s|
        ensures IsJsWhiteSpace(s[i])
      {
        if i < a {
          assert s[..a][i] == s[i];
        } else {
          assert s[a..][i - a] == s[i];
        }
      }
    }
  }

  /** Trimming twice changes nothing more than trimming once. */
  lemma {:induction false} TrimIdempotent(s: string)
    ensures Trim(Trim(s)) == Trim(s)
  {
    var r := Trim(s);
    if r != [] {
      assert TrimStart(r) == r;
      assert TrimEnd(r) == r;
    }
  }

  /**
    The string length JavaScript reports: UTF-16 code units, so a character
    outside the Basic Multilingual Plane counts twice.
  */
  function Utf16Length(s: string): (n: nat)
    ensures |s| <= n <= 2 * |s|
  {
    if s == [] then 0
    else Utf16Length(s[..|s| - 1]) + (if s[|s| - 1] as int > 0xFFFF then 2 else 1)
  }

  /**
    A required, trimmed string field with a `maxlength`: what is stored is
    already trimmed, is not empty (an empty string fails `required`) and is
    within the limit.
  */
  predicate ValidText(s: string, maxLength: nat) {
    s != [] && Trim(s) == s && Utf16Length(s) <= maxLength
  }

  /**
    The schema's rules for a saved record: description and category as
    above, an amount of at least 0 (so 0 itself passes) and a real date.
  */
  predicate SatisfiesSchema(e: Expense): (ok: bool)
    ensures ok ==> !IsBlank(e.description) && Utf16Length(e.description) <= MaxDescriptionLength
    ensures ok ==> !IsBlank(e.category) && Utf16Length(e.category) <= MaxCategoryLength
    ensures ok ==> e.amount >= 0 && ValidDateTime(e.date)
  {
    && ValidText(e.description, MaxDescriptionLength)
    && e.amount >= 0
    && ValidText(e.category, MaxCategoryLength)
    && ValidDateTime(e.date)
  }

  /**
    The document the schema builds from the given fields before validating:
    text fields trimmed, the date given or else `now`, and both timestamps
    set to `now`.
  */
  function Cast(description: string, amount: int, category: string, date: DateTime, now: DateTime): (e: Expense)
    ensures e.description == Trim(description) && e.category == Trim(category)
    ensures e.amount == amount && e.date == date
    ensures e.createdAt == now && e.updatedAt == now
  {
    Expense(Trim(description), amount, Trim(category), date, now, now)
  }

  /** A trimmed text is a valid required field exactly when the original is not all white space and the trimmed text fits. */
  lemma {:induction false} TrimmedTextValidIff(s: string, maxLength: nat)
    ensures ValidText(Trim(s), maxLength) <==> !IsBlank(s) && Utf16Length(Trim(s)) <= maxLength
  {
    var t := Trim(s);
    TrimIdempotent(s);
    assert Trim(t) == t;
    assert t == [] <==> IsBlank(s);
  }

  /** A cast record passes the schema exactly when its trimmed fields are non-empty and within bounds. */
  lemma {:induction false} CastSatisfiesSchemaIff(description: string, amount: int, category: string, date: DateTime, now: DateTime)
    ensures SatisfiesSchema(Cast(description, amount, category, date, now)) <==>
      && !IsBlank(description) && Utf16Length(Trim(description)) <= MaxDescriptionLength
      && amount >= 0
      && !IsBlank(category) && Utf16Length(Trim(category)) <= MaxCategoryLength
      && ValidDateTime(date)
  {
    TrimmedTextValidIff(description, MaxDescriptionLength);
    TrimmedTextValidIff(category, MaxCategoryLength);
  }
}
