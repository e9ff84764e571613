/**
 * `parse_balance` of balance_bot.py after its regular expression has
 * matched: the bank is lower-cased, commas leave the amount, TMB messages
 * carrying "cr." are credits, and the amount must be something `float`
 * accepts. The match itself is an input: `None` when `BALANCE_RE.search`
 * finds nothing, else its three named groups.
 */
module BalanceParse {
  import opened Wrappers
  import opened Strings

  datatype MatchGroups = MatchGroups(alias: string, bank: string, amt: string)

  /** What parse_balance returns; `amount` is the text handed to `float`. */
  datatype Balance = Balance(alias: string, bank: string, amount: string, isCredit: bool)

  /** The number of leading characters of `s` that are digits or commas. */
  function LeadLen(s: string): (k: nat)
    ensures k <= |s|
    ensures forall i :: 0 <= i < k ==> IsDigit(s[i]) || s[i] == ','
    ensures k < |s| ==> !IsDigit(s[k]) && s[k] != ','
  {
    if s != [] && (IsDigit(s[0]) || s[0] == ',') then 1 + LeadLen(s[1..]) else 0
  }

  /** The shape of the `amt` group, `[\d,]+(?:\.\d+)?`. */
  predicate AmountShape(amt: string) {
    var k := LeadLen(amt);
    k >= 1 && (k == |amt| || (amt[k] == '.' && |amt| > k + 1 && AllDigits(amt[k + 1..])))
  }

  /** Text made of digits and points only, that `float` accepts: not empty, not ".", one point at most. */
  predicate FloatText(raw: string) {
    && raw != [] && raw != "."
    && (forall i :: 0 <= i < |raw| ==> IsDigit(raw[i]) || raw[i] == '.')
    && Count(raw, '.') <= 1
  }

  /**
   * `re.sub(r"(?i)<w>\s*", "", s)` for a lower-case literal `w`: every
   * case-insensitive occurrence of `w`, with the whitespace after it, is
   * removed, scanning left to right.
   */
  function SubWord(s: string, w: string): (r: string)
    requires w != []
    ensures |r| <= |s|
    decreases |s|
  {
    if |s| >= |w| && Lower(s[..|w|]) == w then SubWord(TrimLeft(s[|w|..]), w)
    else if s == [] then []
    else [s[0]] + SubWord(s[1..], w)
  }

  /** parse_balance, branch for branch. */
  function ParseBalance(text: string, m: Option<MatchGroups>): (r: Option<Balance>)
    requires m.Some? ==> AmountShape(m.value.amt)
    ensures r.Some? ==> m.Some? && r.value.alias == m.value.alias && r.value.bank == Lower(m.value.bank)
  {
    match m
    case None => None
    case Some(g) =>
      var bank := Lower(g.bank);
      var raw0 := Remove(g.amt, ',');
      var isCredit := bank == "tmb" && Contains(Lower(text), "cr.");
      var raw1 := if bank == "tmb" then SubWord(raw0, "cr.") else raw0;
      var raw := if bank == "idbi" then SubWord(raw1, "inr") else raw1;
      if FloatText(raw) then Some(Balance(g.alias, bank, raw, isCredit)) else None
  }

  // ---------------------------------------------------------------------
  // Properties
  // ---------------------------------------------------------------------

  predicate NoLetters(s: string) {
    forall i :: 0 <= i < |s| ==> IsDigit(s[i]) || s[i] == '.'
  }

  /** A word starting with a letter never matches inside digits and points. */
  lemma {:induction false} SubWordNoLetters(s: string, w: string)
    requires w != [] && 'a' <= w[0] <= 'z' && NoLetters(s)
    ensures SubWord(s, w) == s
    decreases |s|
  {
    if s != [] {
      if |s| >= |w| {
        assert Lower(s[..|w|])[0] == LowerChar(s[0]) == s[0];
      }
      SubWordNoLetters(s[1..], w);
      assert [s[0]] + s[1..] == s;
    }
  }

  lemma {:induction false} RemoveKeepsOthers(s: string, c: char)
    ensures forall i :: 0 <= i < |Remove(s, c)| ==> Remove(s, c)[i] in s
  {
    if s != [] {
      RemoveKeepsOthers(s[1..], c);
    }
  }

  /** Removing the commas from a regex-shaped amount leaves digits and at most one point. */
  lemma RawShape(amt: string)
    requires AmountShape(amt)
    ensures NoLetters(Remove(amt, ','))
    ensures Count(Remove(amt, ','), '.') <= 1
    ensures Remove(amt, ',') != "."
  {
    var raw := Remove(amt, ',');
    var k := LeadLen(amt);
    RemoveKeepsOthers(amt, ',');
    forall i | 0 <= i < |raw| ensures IsDigit(raw[i]) || raw[i] == '.' {
      assert raw[i] in amt && raw[i] != ',';
      var j :| 0 <= j < |amt| && amt[j] == raw[i];
      if j > k {
        assert amt[k + 1..][j - k - 1] == amt[j];
      }
    }
    assert amt == amt[..k] + amt[k..];
    RemoveAppend(amt[..k], amt[k..], ',');
    LeadNoPoint(amt[..k]);
    if k < |amt| {
      assert amt[k..] == ['.'] + amt[k + 1..];
      DigitsNoChar(amt[k + 1..], ',');
      DigitsNoChar(amt[k + 1..], '.');
      RemoveAbsent(amt[k..], ',');
      CountAppend(Remove(amt[..k], ','), amt[k..], '.');
      assert Count(amt[k..], '.') == 1 + Count(amt[k + 1..], '.');
      CountAbsent(amt[k + 1..], '.');
      assert |Remove(amt[..k], ',') + amt[k..]| >= 2;
    } else {
      assert amt[k..] == [];
      assert raw == Remove(amt[..k], ',');
    }
  }

  /** The leading digits-and-commas part holds no point, before or after the commas go. */
  lemma LeadNoPoint(p: string)
    requires forall i :: 0 <= i < |p| ==> IsDigit(p[i]) || p[i] == ','
    ensures Count(Remove(p, ','), '.') == 0
    ensures Remove(p, ',') != "."
  {
    var q := Remove(p, ',');
    assert '.' !in p;
    assert '.' !in q;
    CountAbsent(q, '.');
  }

  lemma DigitsNoChar(s: string, c: char)
    requires AllDigits(s) && !IsDigit(c)
    ensures c !in s
  {
  }

  lemma {:induction false} CountAbsent(s: string, c: char)
    requires c !in s
    ensures Count(s, c) == 0
  {
    if s != [] {
      CountAbsent(s[1..], c);
    }
  }

  lemma {:induction false} CountAppend(a: string, b: string, c: char)
    ensures Count(a + b, c) == Count(a, c) + Count(b, c)
  {
    if a != [] {
      assert (a + b)[1..] == a[1..] + b;
      CountAppend(a[1..], b, c);
    } else {
      assert a + b == b;
    }
  }

  /**
   * parse_balance's promise: None iff nothing matched or the amount held
   * only commas (`float("")` fails); otherwise the bank is lower-cased, the
   * amount is the matched text without its commas (the "cr." and "inr"
   * substitutions never change it), and the credit flag is set iff the bank
   * is TMB and the lower-cased message contains "cr.".
   */
  lemma ParseBalanceSpec(text: string, m: Option<MatchGroups>)
    requires m.Some? ==> AmountShape(m.value.amt)
    ensures var r := ParseBalance(text, m);
      && (r.None? <==> m.None? || Remove(m.value.amt, ',') == [])
      && (r.Some? ==>
            && r.value.alias == m.value.alias
            && r.value.bank == Lower(m.value.bank)
            && r.value.amount == Remove(m.value.amt, ',')
            && ',' !in r.value.amount
            && (r.value.isCredit <==> Lower(m.value.bank) == "tmb" && Contains(Lower(text), "cr.")))
  {
    if m.Some? {
      var raw0 := Remove(m.value.amt, ',');
      RawShape(m.value.amt);
      SubWordNoLetters(raw0, "cr.");
      SubWordNoLetters(raw0, "inr");
    }
  }

  /** A TMB message whose text says "Cr." is stored as a credit; the same line for IOB is not. */
  lemma CreditOnlyForTmb()
    ensures var text := "x_TMB 1,234.50 Cr.";
      && AmountShape("1,234.50")
      && ParseBalance(text, Some(MatchGroups("x", "TMB", "1,234.50"))) == Some(Balance("x", "tmb", "1234.50", true))
      && ParseBalance(text, Some(MatchGroups("x", "IOB", "1,234.50"))) == Some(Balance("x", "iob", "1234.50", false))
  {
    var text := "x_TMB 1,234.50 Cr.";
    ExampleFacts(text);
    AmountExample();
    ParseBalanceSpec(text, Some(MatchGroups("x", "TMB", "1,234.50")));
    ParseBalanceSpec(text, Some(MatchGroups("x", "IOB", "1,234.50")));
  }

  lemma ExampleFacts(text: string)
    requires text == "x_TMB 1,234.50 Cr."
    ensures Contains(Lower(text), "cr.")
    ensures Lower("TMB") == "tmb" && Lower("IOB") == "iob"
    ensures Remove("1,234.50", ',') == "1234.50"
  {
    CrInText(text);
    BankNames();
    CommaExample();
  }

  lemma CrInText(text: string)
    requires text == "x_TMB 1,234.50 Cr."
    ensures Contains(Lower(text), "cr.")
  {
    var lt := Lower(text);
    assert lt[15] == 'c' && lt[16] == 'r' && lt[17] == '.';
    assert lt[15..18] == "cr.";
    ContainsAt(lt, "cr.", 15);
  }

  lemma BankNames()
    ensures Lower("TMB") == "tmb" && Lower("IOB") == "iob"
  {
    var t := Lower("TMB");
    assert t[0] == 't' && t[1] == 'm' && t[2] == 'b';
    var o := Lower("IOB");
    assert o[0] == 'i' && o[1] == 'o' && o[2] == 'b';
  }

  lemma CommaExample()
    ensures Remove("1,234.50", ',') == "1234.50"
  {
    var s := "1,234.50";
    assert s[0] == '1' && s[1..] == ",234.50";
    assert ",234.50"[0] == ',' && ",234.50"[1..] == "234.50";
    RemoveAbsent("234.50", ',');
    assert Remove(s, ',') == ['1'] + Remove(",234.50", ',');
  }

  lemma AmountExample()
    ensures AmountShape("1,234.50")
  {
    var amt := "1,234.50";
    assert amt[5] == '.';
    assert LeadLen(amt[5..]) == 0;
    assert LeadLen(amt[4..]) == 1;
    assert LeadLen(amt[3..]) == 2;
    assert LeadLen(amt[2..]) == 3;
    assert LeadLen(amt[1..]) == 4;
    assert LeadLen(amt) == 5;
    assert amt[6..] == "50";
  }

  lemma {:induction false} ContainsAt(s: string, sub: string, i: nat)
    requires i + |sub| <= |s| && s[i..i + |sub|] == sub
    ensures Contains(s, sub)
    decreases i
  {
    if i == 0 {
      assert s[..|sub|] == sub;
    } else {
      assert s[1..][i - 1..i - 1 + |sub|] == sub;
      ContainsAt(s[1..], sub, i - 1);
    }
  }
}
