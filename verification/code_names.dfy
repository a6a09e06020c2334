/**
 * A Java `switch` over `int` codes whose every `case` returns a fixed string
 * and whose `default:` prints the code in decimal between a fixed prefix and
 * suffix (`"unknown mode (" + mode + ")"`, `Integer.toString(device)`, ...).
 * The table lists the cases in source order; the inverse `Recover` reads a
 * rendered string back to its code.
 */
module CodeNames {
  import opened Wrappers
  import Decimal

  /** One `case code: return name;` of the switch. */
  datatype Case = Case(code: int, name: string)

  /** The `default:` branch renders `prefix + code + suffix`. */
  datatype Fallback = Fallback(prefix: string, suffix: string)

  predicate Listed(table: seq<Case>, code: int) {
    exists i :: 0 <= i < |table| && table[i].code == code
  }

  function Names(table: seq<Case>): set<string> {
    set i | 0 <= i < |table| :: table[i].name
  }

  /** Java refuses duplicate case labels, so every table has distinct codes. */
  predicate CodesDistinct(table: seq<Case>) {
    forall i, j :: 0 <= i < j < |table| ==> table[i].code != table[j].code
  }

  predicate NamesDistinct(table: seq<Case>) {
    forall i, j :: 0 <= i < j < |table| ==> table[i].name != table[j].name
  }

  /**
   * A name that can never collide with a fallback rendering: its first
   * character differs from the fallback's first character (the prefix's, or
   * the sign or first digit of the numeral when there is no prefix).
   */
  predicate SetApart(fallback: Fallback, name: string) {
    && |name| > 0
    && if |fallback.prefix| > 0 then name[0] != fallback.prefix[0]
       else name[0] != '-' && !Decimal.IsDigit(name[0])
  }

  /** The conditions under which the switch can be inverted. */
  predicate WellFormed(table: seq<Case>, fallback: Fallback) {
    && CodesDistinct(table)
    && NamesDistinct(table)
    && forall i :: 0 <= i < |table| ==> SetApart(fallback, table[i].name)
  }

  /** The matching `case`, if any. */
  function Find(table: seq<Case>, code: int): (r: Option<string>)
    ensures r.Some? <==> Listed(table, code)
    ensures r.Some? ==> exists i :: 0 <= i < |table| && table[i].code == code && table[i].name == r.value
  {
    if |table| == 0 then None
    else if table[0].code == code then Some(table[0].name)
    else
      var r := Find(table[1..], code);
      assert Listed(table, code) ==> Listed(table[1..], code) by {
        if Listed(table, code) {
          var i :| 0 <= i < |table| && table[i].code == code;
          assert table[1..][i - 1].code == code;
        }
      }
      assert r.Some? ==> exists i :: 0 <= i < |table| && table[i].code == code && table[i].name == r.value by {
        if r.Some? {
          var i :| 0 <= i < |table| - 1 && table[1..][i].code == code && table[1..][i].name == r.value;
          assert table[i + 1].code == code && table[i + 1].name == r.value;
        }
      }
      r
  }

  /** The code of the first `case` that returns `name`, if any. */
  function FindName(table: seq<Case>, name: string): (r: Option<int>)
    ensures r.None? <==> name !in Names(table)
    ensures r.Some? ==> exists i :: 0 <= i < |table| && table[i].name == name && table[i].code == r.value
  {
    if |table| == 0 then None
    else if table[0].name == name then Some(table[0].code)
    else
      var r := FindName(table[1..], name);
      assert Names(table) == {table[0].name} + Names(table[1..]) by {
        forall n | n in Names(table) ensures n in {table[0].name} + Names(table[1..]) {
          var i :| 0 <= i < |table| && table[i].name == n;
          if i > 0 {
            assert table[1..][i - 1].name == n;
          }
        }
        forall n | n in Names(table[1..]) ensures n in Names(table) {
          var i :| 0 <= i < |table| - 1 && table[1..][i].name == n;
          assert table[i + 1].name == n;
        }
      }
      assert r.Some? ==> exists i :: 0 <= i < |table| && table[i].name == name && table[i].code == r.value by {
        if r.Some? {
          var i :| 0 <= i < |table| - 1 && table[1..][i].name == name && table[1..][i].code == r.value;
          assert table[i + 1].name == name && table[i + 1].code == r.value;
        }
      }
      r
  }

  /** A table whose codes run `base, base + 1, ...` lists exactly that range. */
  lemma ListedConsecutive(table: seq<Case>, base: int, code: int)
    requires forall i :: 0 <= i < |table| ==> table[i].code == base + i
    ensures Listed(table, code) <==> base <= code < base + |table|
  {
    if base <= code < base + |table| {
      assert table[code - base].code == code;
    }
  }

  lemma ConsecutiveCodesDistinct(table: seq<Case>, base: int)
    requires forall i :: 0 <= i < |table| ==> table[i].code == base + i
    ensures CodesDistinct(table)
  {
  }

  /** In a table of consecutive codes, a code in range gets the name at its offset. */
  lemma RenderConsecutive(table: seq<Case>, fallback: Fallback, base: int, code: int)
    requires forall i :: 0 <= i < |table| ==> table[i].code == base + i
    ensures base <= code < base + |table| ==> Render(table, fallback, code) == table[code - base].name
    ensures !(base <= code < base + |table|) ==> Render(table, fallback, code) == Format(fallback, code)
  {
    ListedConsecutive(table, base, code);
    if base <= code < base + |table| {
      RenderListed(table, fallback, code - base);
    }
  }

  /** The `default:` branch's text for `code`: the prefix, the decimal numeral, the suffix. */
  function Format(fallback: Fallback, code: int): (s: string)
    ensures |s| > |fallback.prefix| + |fallback.suffix|
    ensures s[..|fallback.prefix|] == fallback.prefix && s[|s| - |fallback.suffix|..] == fallback.suffix
    ensures Decimal.IsNumeral(s[|fallback.prefix|..|s| - |fallback.suffix|])
  {
    var numeral := Decimal.ToString(code);
    var s := fallback.prefix + numeral + fallback.suffix;
    assert s[|fallback.prefix|..|s| - |fallback.suffix|] == numeral;
    s
  }

  /** Inverse of `Format`: strips the prefix and suffix and parses the numeral between. */
  function Unformat(fallback: Fallback, s: string): (r: Option<int>)
    ensures r.Some? ==> |fallback.prefix| < |s| && s[..|fallback.prefix|] == fallback.prefix
  {
    var p, q := |fallback.prefix|, |fallback.suffix|;
    if p + q <= |s| && s[..p] == fallback.prefix && s[|s| - q..] == fallback.suffix then
      var r := Decimal.Parse(s[p..|s| - q]);
      assert r.Some? ==> |s[p..|s| - q]| > 0;
      r
    else None
  }

  lemma UnformatFormat(fallback: Fallback, code: int)
    ensures Unformat(fallback, Format(fallback, code)) == Some(code)
  {
    var s := Format(fallback, code);
    var p, q := |fallback.prefix|, |fallback.suffix|;
    assert s[..p] == fallback.prefix;
    assert s[|s| - q..] == fallback.suffix;
    assert s[p..|s| - q] == Decimal.ToString(code);
    Decimal.ParseToString(code);
  }

  /** Every fallback rendering starts like the fallback, so no set-apart name equals one. */
  lemma FormatNotSetApart(fallback: Fallback, code: int, name: string)
    requires SetApart(fallback, name)
    ensures Format(fallback, code) != name
  {
    var s := Format(fallback, code);
    if |fallback.prefix| > 0 {
      assert s[0] == fallback.prefix[0];
    } else {
      assert s[0] == Decimal.ToString(code)[0];
    }
  }

  /**
   * The whole switch statement: the name of a `case` carrying the code, or
   * the `default:` text when no `case` does.
   */
  function Render(table: seq<Case>, fallback: Fallback, code: int): (r: string)
    ensures Listed(table, code) ==> exists i :: 0 <= i < |table| && table[i].code == code && r == table[i].name
    ensures !Listed(table, code) ==> r == Format(fallback, code)
  {
    match Find(table, code)
    case Some(name) => name
    case None => Format(fallback, code)
  }

  /** Inverse of `Render`: a listed name gives its code, a fallback text its numeral. */
  function Recover(table: seq<Case>, fallback: Fallback, s: string): Option<int> {
    match FindName(table, s)
    case Some(code) => Some(code)
    case None => Unformat(fallback, s)
  }

  /** Each `case` returns its own name: no earlier label shadows it. */
  lemma RenderListed(table: seq<Case>, fallback: Fallback, i: nat)
    requires CodesDistinct(table)
    requires i < |table|
    ensures Render(table, fallback, table[i].code) == table[i].name
  {
    assert Listed(table, table[i].code);
  }

  /** A code with no `case` reaches the `default:` branch. */
  lemma RenderUnlisted(table: seq<Case>, fallback: Fallback, code: int)
    requires !Listed(table, code)
    ensures Render(table, fallback, code) == Format(fallback, code)
  {
  }

  /** The result is one of the table's names exactly when the code is listed. */
  lemma RenderNamed(table: seq<Case>, fallback: Fallback, code: int)
    requires WellFormed(table, fallback)
    ensures Render(table, fallback, code) in Names(table) <==> Listed(table, code)
  {
    if Listed(table, code) {
      var i :| 0 <= i < |table| && table[i].code == code;
      RenderListed(table, fallback, i);
    } else if Format(fallback, code) in Names(table) {
      var i :| 0 <= i < |table| && table[i].name == Format(fallback, code);
      FormatNotSetApart(fallback, code, table[i].name);
    }
  }

  /** Round trip: every rendering, named or not, reads back to its code. */
  lemma RecoverRender(table: seq<Case>, fallback: Fallback, code: int)
    requires WellFormed(table, fallback)
    ensures Recover(table, fallback, Render(table, fallback, code)) == Some(code)
  {
    RenderNamed(table, fallback, code);
    if Listed(table, code) {
      var i :| 0 <= i < |table| && table[i].code == code;
      RenderListed(table, fallback, i);
      var j :| 0 <= j < |table| && table[j].name == table[i].name && table[j].code == FindName(table, table[i].name).value;
      assert j == i;
    } else {
      UnformatFormat(fallback, code);
    }
  }

  /** Distinct codes never share a rendering. */
  lemma RenderInjective(table: seq<Case>, fallback: Fallback, a: int, b: int)
    requires WellFormed(table, fallback)
    requires Render(table, fallback, a) == Render(table, fallback, b)
    ensures a == b
  {
    RecoverRender(table, fallback, a);
    RecoverRender(table, fallback, b);
  }
}
