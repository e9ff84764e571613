/**
 * Small decisions the workers of main_cloud.py make around a statement
 * download: the date window, which downloaded file is the statement, and
 * the TMB page count read from the pager text.
 */
module Statement {
  import opened Wrappers
  import opened Strings
  import opened Aliases

  // ---------------------------------------------------------------------
  // Date window
  // ---------------------------------------------------------------------

  /** `datetime.hour`. */
  type Hour = h: nat | h < 24

  /** The hour before which the statement starts yesterday: 6 for IOB and KGB, 5 for IDBI and IDFC. */
  function Cutoff(k: WorkerKind): nat
    requires k != Tmb    // TMB downloads without choosing dates
  {
    match k
    case Iob => 6
    case Kgb => 6
    case Idbi => 5
    case Idfc => 5
  }

  /**
   * `from = now - 1 day if now.hour < cutoff else now`; `to` is always
   * today. Days are counted as integers.
   */
  function FromDay(k: WorkerKind, today: int, hour: Hour): (from: int)
    requires k != Tmb
    ensures today - 1 <= from <= today
    ensures from == today - 1 <==> hour < Cutoff(k)
  {
    if hour < Cutoff(k) then today - 1 else today
  }

  /** IOB and KGB reach back to yesterday for one hour more than IDBI and IDFC. */
  lemma CutoffsDifferAtFive(today: int)
    ensures FromDay(Iob, today, 5) == today - 1 && FromDay(Kgb, today, 5) == today - 1
    ensures FromDay(Idbi, today, 5) == today && FromDay(Idfc, today, 5) == today
  {
  }

  // ---------------------------------------------------------------------
  // Newest downloaded file
  // ---------------------------------------------------------------------

  /** A directory entry: its name and `os.path.getctime`. */
  datatype Entry = Entry(name: string, ctime: int)

  /** Which entries a worker considers. */
  datatype Selection =
    | SkipPartial          // TMB, IDBI: not `f.lower().endswith(('.tmp', '.crdownload'))`
    | SkipPartialExact     // IDFC: the same test without lower-casing
    | OnlyExtension(ext: string)   // IOB ".csv", KGB ".xls": `f.lower().endswith(ext)`

  predicate Keeps(sel: Selection, name: string) {
    match sel
    case SkipPartial => !EndsWith(Lower(name), ".tmp") && !EndsWith(Lower(name), ".crdownload")
    case SkipPartialExact => !EndsWith(name, ".tmp") && !EndsWith(name, ".crdownload")
    case OnlyExtension(ext) => EndsWith(Lower(name), ext)
  }

  /** The comprehension `[f for f in files if ...]`: the kept entries, in directory order. */
  function Candidates(files: seq<Entry>, sel: Selection): (r: seq<Entry>)
    ensures forall e :: e in r <==> e in files && Keeps(sel, e.name)
  {
    if files == [] then []
    else (if Keeps(sel, files[0].name) then [files[0]] else []) + Candidates(files[1..], sel)
  }

  /**
   * `max(cs, key=getctime)`: the position of the first entry with the
   * greatest ctime (Python's `max` keeps the earliest of equal keys).
   */
  function FirstMax(cs: seq<Entry>): (i: nat)
    requires cs != []
    ensures i < |cs|
    ensures forall j :: 0 <= j < |cs| ==> cs[j].ctime <= cs[i].ctime
    ensures forall j :: 0 <= j < i ==> cs[j].ctime < cs[i].ctime
  {
    if |cs| == 1 then 0
    else
      var k := FirstMax(cs[1..]) + 1;
      if cs[0].ctime >= cs[k].ctime then 0 else k
  }

  /** The statement file a worker picks, or None while nothing usable has arrived. */
  function NewestFile(files: seq<Entry>, sel: Selection): (r: Option<string>)
    ensures r.None? <==> forall e :: e in files ==> !Keeps(sel, e.name)
    ensures r.Some? ==> exists e :: (e in files && Keeps(sel, e.name) && e.name == r.value
      && forall f :: f in files && Keeps(sel, f.name) ==> f.ctime <= e.ctime)
  {
    var cs := Candidates(files, sel);
    if cs == [] then None
    else
      var e := cs[FirstMax(cs)];
      assert e in cs;
      Some(e.name)
  }

  /** An upper-case partial download is skipped by TMB and IDBI but picked by IDFC. */
  lemma UpperCasePartialOnlyIdfc()
    ensures var files := [Entry("stmt.xls", 1), Entry("STMT.TMP", 2)];
      NewestFile(files, SkipPartial) == Some("stmt.xls") && NewestFile(files, SkipPartialExact) == Some("STMT.TMP")
  {
    var x := Entry("stmt.xls", 1);
    var y := Entry("STMT.TMP", 2);
    KeepsExamples();
    CandidatesOfTwo(x, y, SkipPartial);
    CandidatesOfTwo(x, y, SkipPartialExact);
    assert FirstMax([x, y]) == 1 by {
      assert [x, y][1..] == [y];
    }
  }

  lemma CandidatesOfTwo(x: Entry, y: Entry, sel: Selection)
    ensures Candidates([x, y], sel) == (if Keeps(sel, x.name) then [x] else []) + (if Keeps(sel, y.name) then [y] else [])
  {
    assert [x, y][1..] == [y];
    assert [y][1..] == [];
    assert Candidates([y], sel) == (if Keeps(sel, y.name) then [y] else []) + Candidates([], sel);
  }

  lemma KeepsExamples()
    ensures Keeps(SkipPartial, "stmt.xls") && !Keeps(SkipPartial, "STMT.TMP")
    ensures Keeps(SkipPartialExact, "stmt.xls") && Keeps(SkipPartialExact, "STMT.TMP")
  {
    LowerTmp();
    assert Lower("stmt.xls")[5] == 'x';
    assert "stmt.xls"[5] == 'x' && "STMT.TMP"[5] == 'T';
  }

  lemma LowerTmp()
    ensures Lower("STMT.TMP")[4..] == ".tmp"
  {
    var lo := Lower("STMT.TMP");
    assert lo[4] == '.' && lo[5] == 't' && lo[6] == 'm' && lo[7] == 'p';
  }

  // ---------------------------------------------------------------------
  // Page count: re.search(r"Page\s+\d+\s+of\s+(\d+)", page_info)
  // ---------------------------------------------------------------------

  /** The end of the run of whitespace starting at `i`. */
  function SpanSpaces(t: string, i: nat): (j: nat)
    requires i <= |t|
    ensures i <= j <= |t|
    ensures forall k :: i <= k < j ==> IsSpace(t[k])
    ensures j < |t| ==> !IsSpace(t[j])
    decreases |t| - i
  {
    if i < |t| && IsSpace(t[i]) then SpanSpaces(t, i + 1) else i
  }

  /** The end of the run of digits starting at `i`. */
  function SpanDigits(t: string, i: nat): (j: nat)
    requires i <= |t|
    ensures i <= j <= |t|
    ensures AllDigits(t[i..j])
    ensures j < |t| ==> !IsDigit(t[j])
    decreases |t| - i
  {
    if i < |t| && IsDigit(t[i]) then SpanDigits(t, i + 1) else i
  }

  /** `\s+` from `j`: the end of a non-empty whitespace run. */
  function AfterSpaces(t: string, j: nat): (r: Option<nat>)
    requires j <= |t|
    ensures r.Some? ==> j < r.value <= |t|
  {
    var a := SpanSpaces(t, j);
    if a == j then None else Some(a)
  }

  /** `\d+` from `j`: the end of a non-empty digit run. */
  function AfterDigits(t: string, j: nat): (r: Option<nat>)
    requires j <= |t|
    ensures r.Some? ==> j < r.value <= |t| && AllDigits(t[j..r.value])
  {
    var a := SpanDigits(t, j);
    if a == j then None else Some(a)
  }

  /**
   * The pattern anchored at `i`. Whitespace, digits and the letters of "of"
   * are disjoint, so each `+` takes its longest run and no backtracking is
   * needed; the group is the whole digit run after "of".
   */
  function MatchAt(t: string, i: nat): (r: Option<string>)
    requires i <= |t|
    ensures r.Some? ==> r.value != [] && AllDigits(r.value)
  {
    if !StartsWith(t[i..], "Page") then None
    else match AfterSpaces(t, i + 4)
      case None => None
      case Some(a) => match AfterDigits(t, a)
        case None => None
        case Some(b) => match AfterSpaces(t, b)
          case None => None
          case Some(c) =>
            if !StartsWith(t[c..], "of") then None
            else match AfterSpaces(t, c + 2)
              case None => None
              case Some(d) => match AfterDigits(t, d)
                case None => None
                case Some(e) => Some(t[d..e])
  }

  /** `re.search`: the first start position where the pattern matches. */
  function SearchFrom(t: string, i: nat): (r: Option<string>)
    requires i <= |t|
    ensures r.Some? ==> r.value != [] && AllDigits(r.value)
    decreases |t| - i
  {
    match MatchAt(t, i)
    case Some(g) => Some(g)
    case None => if i == |t| then None else SearchFrom(t, i + 1)
  }

  /**
   * The TMB page count: the captured number, or "1" when the pager text
   * does not match or never appeared (`pageInfo` None: the wait timed out).
   */
  function PageCount(pageInfo: Option<string>): (r: string)
    ensures r != [] && AllDigits(r)
    ensures pageInfo.None? ==> r == "1"
  {
    match pageInfo
    case None => "1"
    case Some(t) =>
      match SearchFrom(t, 0)
      case Some(g) => g
      case None => "1"
  }

  /** "Page a of b" reads back as b. */
  lemma PageCountReadsTotal(a: nat, b: nat)
    ensures PageCount(Some("Page " + DecimalDigits(a) + " of " + DecimalDigits(b))) == DecimalDigits(b)
  {
    var da := DecimalDigits(a);
    var db := DecimalDigits(b);
    var t := "Page " + da + " of " + db;
    PagerHead(da, db);
    PagerTail(da, db);
    assert StartsWith(t[0..], "Page");
    assert MatchAt(t, 0) == Some(db);
  }

  /** Pager text without the word "Page" falls back to one page. */
  lemma PageCountWithoutPage(t: string)
    requires !Contains(t, "Page")
    ensures PageCount(Some(t)) == "1"
  {
    NoPageNoSearch(t, 0);
  }

  /** No match starts at or after `i` when the rest of the text has no "Page". */
  lemma {:induction false} NoPageNoSearch(t: string, i: nat)
    requires i <= |t| && !Contains(t[i..], "Page")
    ensures SearchFrom(t, i).None?
    decreases |t| - i
  {
    if i < |t| {
      assert t[i..][1..] == t[i + 1..];
      NoPageNoSearch(t, i + 1);
    }
  }

  /** "Page a of ": the word, a space, the digit run and the space before "of". */
  lemma PagerHead(da: string, db: string)
    requires da != [] && AllDigits(da) && db != [] && AllDigits(db)
    ensures var t := "Page " + da + " of " + db;
      && AfterSpaces(t, 4) == Some(5)
      && AfterDigits(t, 5) == Some(5 + |da|)
      && AfterSpaces(t, 5 + |da|) == Some(6 + |da|)
      && StartsWith(t[6 + |da|..], "of")
  {
    var t := "Page " + da + " of " + db;
    assert t[4] == ' ' && t[5] == da[0];
    SpanDigitsOver(t, 5, da);
    var b1 := 5 + |da|;
    assert t[b1] == ' ' && t[b1 + 1] == 'o';
    assert t[b1 + 1..][..2] == "of";
  }

  /** " b" after "of": one space, then the whole digit run to the end. */
  lemma PagerTail(da: string, db: string)
    requires da != [] && AllDigits(da) && db != [] && AllDigits(db)
    ensures var t := "Page " + da + " of " + db;
      && AfterSpaces(t, 8 + |da|) == Some(9 + |da|)
      && AfterDigits(t, 9 + |da|) == Some(|t|)
      && t[9 + |da|..|t|] == db
  {
    var t := "Page " + da + " of " + db;
    var d1 := 9 + |da|;
    assert t[d1 - 1] == ' ' && t[d1] == db[0];
    assert t[d1..|t|] == db;
    SpanDigitsOver(t, d1, db);
  }

  /** A digit string placed at `i` and followed by a non-digit or the end is one whole run. */
  lemma {:induction false} SpanDigitsOver(t: string, i: nat, ds: string)
    requires i + |ds| <= |t| && t[i..i + |ds|] == ds && AllDigits(ds)
    requires i + |ds| < |t| ==> !IsDigit(t[i + |ds|])
    ensures SpanDigits(t, i) == i + |ds|
    decreases |ds|
  {
    if ds != [] {
      assert t[i] == ds[0];
      assert t[i + 1..i + 1 + |ds[1..]|] == ds[1..];
      SpanDigitsOver(t, i + 1, ds[1..]);
    }
  }
}
