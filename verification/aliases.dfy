/**
 * The alias registry side of main_cloud.py: which worker class serves an
 * alias (chosen by its suffix) and how an `/add` command is split into a
 * credential record.
 */
module Aliases {
  import opened Wrappers
  import opened Strings

  type Alias = string

  /** The automation classes; `_iobcorp` aliases share the IOB class. */
  datatype WorkerKind = Tmb | Iob | Kgb | Idbi | Idfc

  /** `_WORKER_CLASSES`, in its insertion (and iteration) order. */
  const WorkerClasses: seq<(string, WorkerKind)> :=
    [("tmb", Tmb), ("iob", Iob), ("iobcorp", Iob), ("kgb", Kgb), ("idbi", Idbi), ("idfc", Idfc)]

  predicate HasSuffix(alias: Alias, i: nat)
    requires i < |WorkerClasses|
  {
    EndsWith(alias, "_" + WorkerClasses[i].0)
  }

  /** The first table entry, from index `from` on, whose suffix ends the alias. */
  function FirstSuffixFrom(alias: Alias, from: nat): (r: Option<nat>)
    requires from <= |WorkerClasses|
    ensures r.Some? ==> from <= r.value < |WorkerClasses| && HasSuffix(alias, r.value)
    ensures r.Some? ==> forall j :: from <= j < r.value ==> !HasSuffix(alias, j)
    ensures r.None? ==> forall j :: from <= j < |WorkerClasses| ==> !HasSuffix(alias, j)
    decreases |WorkerClasses| - from
  {
    if from == |WorkerClasses| then None
    else if HasSuffix(alias, from) then Some(from)
    else FirstSuffixFrom(alias, from + 1)
  }

  /**
   * The `for suffix, cls in _WORKER_CLASSES.items()` selection of run_alias:
   * the class of the first entry whose `_<suffix>` ends the alias, or None
   * (the "Alias must end in ..." refusal).
   */
  function SelectWorker(alias: Alias): (r: Option<WorkerKind>)
    ensures r.None? <==> forall j :: 0 <= j < |WorkerClasses| ==> !HasSuffix(alias, j)
    ensures r.Some? ==> exists j :: 0 <= j < |WorkerClasses| && HasSuffix(alias, j) && WorkerClasses[j].1 == r.value
  {
    match FirstSuffixFrom(alias, 0)
    case None => None
    case Some(i) => Some(WorkerClasses[i].1)
  }

  lemma EndsWithBoth(s: string, x: string, y: string)
    requires EndsWith(s, x) && EndsWith(s, y) && |x| <= |y|
    ensures EndsWith(y, x)
  {
    assert y[|y| - |x|..] == s[|s| - |x|..];
  }

  /** The last two characters of the `_<suffix>` of table entry `i`. */
  function Tail(i: nat): (char, char)
    requires i < |WorkerClasses|
  {
    var x := "_" + WorkerClasses[i].0;
    (x[|x| - 1], x[|x| - 2])
  }

  lemma TailsDistinct(i: nat, j: nat)
    requires i < |WorkerClasses| && j < |WorkerClasses| && i != j
    ensures Tail(i) != Tail(j)
  {
  }

  lemma SuffixTail(alias: Alias, i: nat)
    requires i < |WorkerClasses| && HasSuffix(alias, i)
    ensures |alias| >= 2 && (alias[|alias| - 1], alias[|alias| - 2]) == Tail(i)
  {
    var x := "_" + WorkerClasses[i].0;
    assert alias[|alias| - |x|..] == x;
    assert alias[|alias| - 1] == x[|x| - 1] && alias[|alias| - 2] == x[|x| - 2];
  }

  /**
   * No alias ends with two of the table's suffixes, so the iteration order of
   * `_WORKER_CLASSES` never decides which class is chosen.
   */
  lemma SuffixesExclusive(alias: Alias, i: nat, j: nat)
    requires i < |WorkerClasses| && j < |WorkerClasses|
    requires HasSuffix(alias, i) && HasSuffix(alias, j)
    ensures i == j
  {
    SuffixTail(alias, i);
    SuffixTail(alias, j);
    if i != j {
      TailsDistinct(i, j);
    }
  }

  /** A credential row: TMB rows fill `username`, corporate rows `loginId` and `userId`. */
  datatype Credential = Credential(
    alias: Alias, loginId: string, userId: string, username: string,
    password: string, accountNumber: string)

  datatype AddResult =
    | Usage                 // the text does not start with "/add "
    | InvalidFormat         // neither 4 nor 5 comma-separated fields
    | Duplicate(alias: Alias)
    | Added(cred: Credential)

  function StripAll(parts: seq<string>): (r: seq<string>)
    ensures |r| == |parts|
    ensures forall i :: 0 <= i < |parts| ==> r[i] == Strip(parts[i])
  {
    seq(|parts|, i requires 0 <= i < |parts| => Strip(parts[i]))
  }

  /** The fields of an `/add` command: the text after "/add ", split at commas, each stripped. */
  function AddFields(text: string): seq<string>
    requires |text| >= 5
  {
    StripAll(Split(text[5..], ','))
  }

  /**
   * add_alias without its file I/O: 4 fields are a TMB row, 5 fields a
   * corporate row, any other count is refused, and so is an alias that is
   * already registered.
   */
  function AddAlias(message: string, known: set<Alias>): (r: AddResult)
    ensures r.Added? ==> r.cred.alias !in known
    ensures r.Duplicate? ==> r.alias in known
    ensures !r.Usage? ==> StartsWith(Lower(Strip(message)), "/add ")
    ensures (r.Added? || r.Duplicate?) ==>
      Count(Strip(message)[5..], ',') == 3 || Count(Strip(message)[5..], ',') == 4
  {
    var text := Strip(message);
    if !StartsWith(Lower(text), "/add ") then Usage
    else
      var parts := AddFields(text);
      SplitCount(text[5..], ',');
      if |parts| == 4 then
        if parts[0] in known then Duplicate(parts[0])
        else Added(Credential(parts[0], "", "", parts[1], parts[2], parts[3]))
      else if |parts| == 5 then
        if parts[0] in known then Duplicate(parts[0])
        else Added(Credential(parts[0], parts[1], parts[2], "", parts[3], parts[4]))
      else InvalidFormat
  }

  /**
   * Every outcome of add_alias, by the message alone: no "/add " prefix is
   * the usage reply; otherwise the comma count decides between the invalid
   * format reply (neither 3 nor 4 commas) and a row, and a row whose first
   * stripped field is already registered is refused as a duplicate of it.
   */
  lemma AddAliasCases(message: string, known: set<Alias>)
    ensures var text := Strip(message);
      var r := AddAlias(message, known);
      && (r.Usage? <==> !StartsWith(Lower(text), "/add "))
      && (StartsWith(Lower(text), "/add ") ==>
            var n := Count(text[5..], ',');
            var first := Strip(Split(text[5..], ',')[0]);
            && (r == InvalidFormat <==> n != 3 && n != 4)
            && (r.Duplicate? <==> (n == 3 || n == 4) && first in known)
            && (r.Duplicate? ==> r.alias == first)
            && (r.Added? ==> r.cred.alias == first))
  {
    var text := Strip(message);
    if StartsWith(Lower(text), "/add ") {
      SplitCount(text[5..], ',');
      var parts := AddFields(text);
      assert parts[0] == Strip(Split(text[5..], ',')[0]);
    }
  }

  /** A field the operator can type so that it survives the split unchanged. */
  predicate PlainField(f: string) {
    f != [] && ',' !in f && !IsSpace(f[0]) && !IsSpace(f[|f| - 1])
  }

  lemma StripPlain(f: string)
    requires f == [] || (!IsSpace(f[0]) && !IsSpace(f[|f| - 1]))
    ensures Strip(f) == f
  {
  }

  lemma {:induction false} JoinEnds(parts: seq<string>, sep: char)
    requires |parts| >= 1 && forall i :: 0 <= i < |parts| ==> parts[i] != []
    ensures var t := Join(parts, sep); t != [] && t[|t| - 1] == parts[|parts| - 1][|parts[|parts| - 1]| - 1]
  {
    if |parts| > 1 {
      JoinEnds(parts[1..], sep);
    }
  }

  /**
   * A TMB `/add` line built from plain fields is accepted as exactly those
   * fields, with the corporate fields left empty.
   */
  lemma AddTmbRoundTrip(alias: Alias, username: string, password: string, account: string, known: set<Alias>)
    requires PlainField(alias) && PlainField(username) && PlainField(password) && PlainField(account)
    requires alias !in known
    ensures AddAlias("/add " + Join([alias, username, password, account], ','), known)
         == Added(Credential(alias, "", "", username, password, account))
  {
    var fields := [alias, username, password, account];
    AddRoundTrip(fields);
  }

  /** A corporate `/add` line built from plain fields is accepted as exactly those fields. */
  lemma AddCorporateRoundTrip(alias: Alias, loginId: string, userId: string, password: string, account: string, known: set<Alias>)
    requires PlainField(alias) && PlainField(loginId) && PlainField(userId)
    requires PlainField(password) && PlainField(account)
    requires alias !in known
    ensures AddAlias("/add " + Join([alias, loginId, userId, password, account], ','), known)
         == Added(Credential(alias, loginId, userId, "", password, account))
  {
    var fields := [alias, loginId, userId, password, account];
    AddRoundTrip(fields);
  }

  lemma AddRoundTrip(fields: seq<string>)
    requires |fields| >= 1 && forall i :: 0 <= i < |fields| ==> PlainField(fields[i])
    ensures var text := "/add " + Join(fields, ',');
      Strip(text) == text && StartsWith(Lower(text), "/add ") && AddFields(text) == fields
  {
    var body := Join(fields, ',');
    var text := "/add " + body;
    AddLineStripped(fields);
    AddLinePrefix(body);
    assert text[5..] == body;
    assert forall i :: 0 <= i < |fields| ==> ',' !in fields[i] by {
      forall i | 0 <= i < |fields| ensures ',' !in fields[i] {
        assert PlainField(fields[i]);
      }
    }
    SplitJoin(fields, ',');
    StripAllPlain(fields);
  }

  lemma StripAllPlain(fields: seq<string>)
    requires forall i :: 0 <= i < |fields| ==> PlainField(fields[i])
    ensures StripAll(fields) == fields
  {
    forall i | 0 <= i < |fields| ensures Strip(fields[i]) == fields[i] {
      assert PlainField(fields[i]);
      StripPlain(fields[i]);
    }
  }

  lemma AddLineStripped(fields: seq<string>)
    requires |fields| >= 1 && forall i :: 0 <= i < |fields| ==> PlainField(fields[i])
    ensures var text := "/add " + Join(fields, ','); Strip(text) == text
  {
    var body := Join(fields, ',');
    JoinEnds(fields, ',');
    assert body != [] && !IsSpace(body[|body| - 1]) by {
      var last := fields[|fields| - 1];
      assert PlainField(last);
    }
    EndsPlain(body);
  }

  lemma EndsPlain(body: string)
    requires body != [] && !IsSpace(body[|body| - 1])
    ensures Strip("/add " + body) == "/add " + body
  {
    var text := "/add " + body;
    assert text[|text| - 1] == body[|body| - 1];
    StripPlain(text);
  }

  lemma AddLinePrefix(body: string)
    ensures StartsWith(Lower("/add " + body), "/add ")
  {
    var text := "/add " + body;
    assert Lower(text)[..5] == "/add ";
  }
}
