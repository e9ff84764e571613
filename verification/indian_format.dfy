/**
 * `format_indian` of balance_bot.py: a signed amount printed with Indian
 * digit grouping (the last three digits, then pairs) and two decimals. The
 * amount is a whole number of paise.
 */
module IndianFormat {
  import opened Wrappers
  import opened Strings

  /** The two decimals of a paise remainder. */
  function TwoDigits(n: nat): (r: string)
    requires n < 100
    ensures |r| == 2 && AllDigits(r)
    ensures DigitValue(r[0]) * 10 + DigitValue(r[1]) == n
  {
    [DigitChar(n / 10), DigitChar(n % 10)]
  }

  /**
   * The `while len(head) > 2` loop: pairs are cut from the right of `head`
   * and the 1- or 2-digit rest leads.
   */
  function HeadGroups(head: string): (parts: seq<string>)
    ensures |parts| >= 1
    decreases |head|
  {
    if |head| > 2 then HeadGroups(head[..|head| - 2]) + [head[|head| - 2..]] else [head]
  }

  /** All groups of the integer part: the head groups, then the last three digits. */
  function Groups(s: string): (gs: seq<string>)
    ensures |gs| >= 1
  {
    if |s| <= 3 then [s] else HeadGroups(s[..|s| - 3]) + [s[|s| - 3..]]
  }

  /** The grouped integer part `s` of format_indian. */
  function Grouped(s: string): string {
    if |s| <= 3 then s else Join(HeadGroups(s[..|s| - 3]), ',') + "," + s[|s| - 3..]
  }

  /** The whole result: sign, grouped integer part, point, two decimals. */
  function Format(paise: int): string {
    var x := if paise < 0 then -paise else paise;
    (if paise < 0 then "-" else "") + Grouped(DecimalDigits(x / 100)) + "." + TwoDigits(x % 100)
  }

  /** format_indian with its own loop; proved to compute `Format`. */
  method FormatIndian(paise: int) returns (r: string)
    ensures r == Format(paise)
  {
    var sign := if paise < 0 then "-" else "";
    var x := if paise < 0 then -paise else paise;
    var whole := x / 100;
    var frac := TwoDigits(x % 100);
    var s := DecimalDigits(whole);
    if |s| > 3 {
      var head := s[..|s| - 3];
      var tail := s[|s| - 3..];
      var parts: seq<string> := [];
      while |head| > 2
        invariant HeadGroups(s[..|s| - 3]) == HeadGroups(head) + parts
        decreases |head|
      {
        parts := [head[|head| - 2..]] + parts;
        head := head[..|head| - 2];
      }
      parts := [head] + parts;
      s := Join(parts, ',') + "," + tail;
    }
    r := sign + s + "." + frac;
  }

  // ---------------------------------------------------------------------
  // Properties of the grouping
  // ---------------------------------------------------------------------

  /** The grouped text is the groups joined with commas. */
  lemma GroupedIsJoin(s: string)
    ensures Grouped(s) == Join(Groups(s), ',')
  {
    if |s| > 3 {
      JoinSnoc(HeadGroups(s[..|s| - 3]), s[|s| - 3..], ',');
    }
  }

  lemma {:induction false} JoinSnoc(parts: seq<string>, last: string, sep: char)
    requires |parts| >= 1
    ensures Join(parts + [last], sep) == Join(parts, sep) + [sep] + last
  {
    if |parts| > 1 {
      JoinSnoc(parts[1..], last, sep);
      assert (parts + [last])[1..] == parts[1..] + [last];
    } else {
      assert (parts + [last])[1..] == [last];
    }
  }

  /** The head groups concatenate back to the head, with 2 digits in all but the first. */
  lemma {:induction false} HeadGroupsShape(head: string)
    requires |head| >= 1
    ensures Concat(HeadGroups(head)) == head
    ensures var ps := HeadGroups(head); 1 <= |ps[0]| <= 2 && forall i :: 1 <= i < |ps| ==> |ps[i]| == 2
    decreases |head|
  {
    if |head| > 2 {
      var init := head[..|head| - 2];
      HeadGroupsShape(init);
      ConcatSnoc(HeadGroups(init), head[|head| - 2..]);
      assert init + head[|head| - 2..] == head;
    }
  }

  /** Concatenation of a list of strings. */
  function Concat(parts: seq<string>): string {
    if parts == [] then "" else parts[0] + Concat(parts[1..])
  }

  lemma {:induction false} ConcatSnoc(parts: seq<string>, last: string)
    ensures Concat(parts + [last]) == Concat(parts) + last
  {
    if parts != [] {
      ConcatSnoc(parts[1..], last);
      assert (parts + [last])[1..] == parts[1..] + [last];
    }
  }

  /**
   * The grouping of balance_bot.py: at most 3 digits stand alone; longer
   * integer parts end in a 3-digit group, start with a 1- or 2-digit group,
   * and every group between has exactly 2 digits. Concatenated, the groups
   * give back the digits.
   */
  lemma GroupsShape(s: string)
    requires s != []
    ensures var gs := Groups(s);
      && Concat(gs) == s
      && (|s| <= 3 ==> gs == [s])
      && (|s| > 3 ==>
            && |gs| >= 2
            && |gs[|gs| - 1]| == 3
            && 1 <= |gs[0]| <= 2
            && forall i :: 1 <= i < |gs| - 1 ==> |gs[i]| == 2)
  {
    if |s| > 3 {
      var head := s[..|s| - 3];
      var hs := HeadGroups(head);
      HeadGroupsShape(head);
      ConcatSnoc(hs, s[|s| - 3..]);
      assert head + s[|s| - 3..] == s;
      var gs := Groups(s);
      assert gs == hs + [s[|s| - 3..]];
      assert forall i :: 1 <= i < |gs| - 1 ==> gs[i] == hs[i];
    }
  }

  /** An integer part of at most three digits is printed without commas. */
  lemma ShortHasNoCommas(s: string)
    requires |s| <= 3
    ensures Grouped(s) == s
  {
  }

  lemma {:induction false} RemoveConcatJoin(parts: seq<string>, sep: char)
    requires forall i :: 0 <= i < |parts| ==> sep !in parts[i]
    ensures Remove(Join(parts, sep), sep) == Concat(parts)
  {
    if parts == [] {
    } else if |parts| == 1 {
      RemoveAbsent(parts[0], sep);
      assert Concat(parts) == parts[0] + Concat([]);
    } else {
      RemoveConcatJoin(parts[1..], sep);
      RemoveAppend(parts[0] + [sep], Join(parts[1..], sep), sep);
      RemoveAppend(parts[0], [sep], sep);
      RemoveAbsent(parts[0], sep);
    }
  }

  lemma HeadGroupsNoSep(head: string, sep: char)
    requires sep !in head
    ensures forall i :: 0 <= i < |HeadGroups(head)| ==> sep !in HeadGroups(head)[i]
    decreases |head|
  {
    if |head| > 2 {
      HeadGroupsNoSep(head[..|head| - 2], sep);
    }
  }

  /** Deleting the commas from the grouped integer part gives `str(whole)` back. */
  lemma CommasRemoveToDigits(whole: nat)
    ensures Remove(Grouped(DecimalDigits(whole)), ',') == DecimalDigits(whole)
  {
    var s := DecimalDigits(whole);
    assert ',' !in s by {
      forall i | 0 <= i < |s| ensures s[i] != ',' {
        assert IsDigit(s[i]);
      }
    }
    GroupedIsJoin(s);
    if |s| > 3 {
      HeadGroupsNoSep(s[..|s| - 3], ',');
    }
    RemoveConcatJoin(Groups(s), ',');
    GroupsShape(s);
  }

  /**
   * A negative amount is its absolute value with exactly one "-" in front;
   * the decimals are always exactly two digits after the only point.
   */
  lemma SignAndDecimals(paise: int)
    ensures paise < 0 ==> Format(paise) == "-" + Format(-paise)
    ensures paise >= 0 ==> Format(paise) != [] && Format(paise)[0] != '-'
    ensures var f := Format(paise); |f| >= 4 && f[|f| - 3] == '.' && AllDigits(f[|f| - 2..])
  {
    var x := if paise < 0 then -paise else paise;
    var g := Grouped(DecimalDigits(x / 100));
    GroupedLeadsWithDigit(DecimalDigits(x / 100));
    var f := Format(paise);
    assert f[|f| - 2..] == TwoDigits(x % 100);
  }

  /** The grouped text is non-empty and starts with a digit. */
  lemma GroupedLeadsWithDigit(s: string)
    requires s != [] && AllDigits(s)
    ensures Grouped(s) != [] && IsDigit(Grouped(s)[0])
  {
    if |s| > 3 {
      var head := s[..|s| - 3];
      HeadGroupsShape(head);
      var hs := HeadGroups(head);
      assert Concat(hs) == hs[0] + Concat(hs[1..]);
      assert hs[0][0] == head[0];
      JoinHead(hs, ',');
    }
  }

  lemma JoinHead(parts: seq<string>, sep: char)
    requires |parts| >= 1 && parts[0] != []
    ensures Join(parts, sep) != [] && Join(parts, sep)[0] == parts[0][0]
  {
  }

  // ---------------------------------------------------------------------
  // Reading a formatted amount back
  // ---------------------------------------------------------------------

  /** The amount a formatted text denotes: sign, commas dropped, two decimals. */
  function ParseFormatted(t: string): (r: Option<int>)
  {
    if t != [] && t[0] == '-' then
      match ParseUnsigned(t[1..])
      case None => None
      case Some(v) => Some(-(v as int))
    else ParseUnsigned(t)
  }

  function ParseUnsigned(t: string): (r: Option<nat>)
  {
    ParsePieces(Split(Remove(t, ','), '.'))
  }

  /** The whole digits and the two decimals, once the commas are gone and the text is split at the point. */
  function ParsePieces(pieces: seq<string>): (r: Option<nat>)
  {
    if |pieces| != 2 || pieces[0] == [] || |pieces[1]| != 2 || !AllDigits(pieces[0]) || !AllDigits(pieces[1])
    then None
    else Some(DecimalValue(pieces[0]) * 100 + DecimalValue(pieces[1]))
  }

  /** Every formatted amount reads back as the amount it was made from. */
  lemma FormatRoundTrip(paise: int)
    ensures ParseFormatted(Format(paise)) == Some(paise)
  {
    var x := if paise < 0 then -paise else paise;
    var digits := DecimalDigits(x / 100);
    var unsigned := Grouped(digits) + "." + TwoDigits(x % 100);
    UnsignedReadsBack(x);
    GroupedLeadsWithDigit(digits);
    SignedReadsBack(unsigned, x);
    if paise < 0 {
      assert Format(paise) == "-" + unsigned;
    } else {
      assert Format(paise) == unsigned;
    }
  }

  /** The sign in front of an unsigned text that reads back is read back too. */
  lemma SignedReadsBack(u: string, v: nat)
    requires u != [] && u[0] != '-' && ParseUnsigned(u) == Some(v)
    ensures ParseFormatted(u) == Some(v)
    ensures ParseFormatted("-" + u) == Some(-(v as int))
  {
    assert ("-" + u)[1..] == u;
  }

  lemma UnsignedReadsBack(x: nat)
    ensures ParseUnsigned(Grouped(DecimalDigits(x / 100)) + "." + TwoDigits(x % 100)) == Some(x)
  {
    var q, r := x / 100, x % 100;
    var digits := DecimalDigits(q);
    var frac := TwoDigits(r);
    BodyReadsBack(digits, frac);
    DecimalRoundTrip(q);
    TwoDigitsValue(r);
    assert ParsePieces([digits, frac]) == Some(q * 100 + r);
  }

  lemma TwoDigitsValue(n: nat)
    requires n < 100
    ensures DecimalValue(TwoDigits(n)) == n
  {
    var f := TwoDigits(n);
    assert f[..1][..0] == [];
    assert DecimalValue(f[..1]) == DigitValue(f[0]);
  }

  /** Without the sign, the commas vanish and the text splits into the digits and the decimals. */
  lemma BodyReadsBack(digits: string, frac: string)
    requires digits != [] && AllDigits(digits) && |frac| == 2 && AllDigits(frac)
    ensures Split(Remove(Grouped(digits) + "." + frac, ','), '.') == [digits, frac]
  {
    assert ',' !in digits && '.' !in digits by {
      forall i | 0 <= i < |digits| ensures digits[i] != ',' && digits[i] != '.' {
        assert IsDigit(digits[i]);
      }
    }
    assert ',' !in frac && '.' !in frac by {
      assert IsDigit(frac[0]) && IsDigit(frac[1]);
    }
    CommasRemoveToDigitsText(digits);
    RemoveAppend(Grouped(digits) + ".", frac, ',');
    RemoveAppend(Grouped(digits), ".", ',');
    RemoveAbsent(".", ',');
    RemoveAbsent(frac, ',');
    SplitPrefix(digits, frac, '.');
    SplitNoSep(frac, '.');
  }

  lemma CommasRemoveToDigitsText(s: string)
    requires AllDigits(s) && ',' !in s
    ensures Remove(Grouped(s), ',') == s
  {
    GroupedIsJoin(s);
    if |s| > 3 {
      HeadGroupsNoSep(s[..|s| - 3], ',');
    }
    RemoveConcatJoin(Groups(s), ',');
    if s != [] {
      GroupsShape(s);
    }
  }
}
