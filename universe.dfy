/** The store universe and its structural summaries (class Universe_Structure of
    app_modules/niv_sample_selection.py): the column check, the ACV and store-count
    breakdowns by retailer, state, city or the detailed hierarchy, and the object
    that holds the four breakdowns once computed. */
module Universe {
  import opened Numeric
  import opened Tables

  /** A cell of the ACV column as it arrives in the uploaded table: already a number, or text. */
  datatype Cell = Num(n: int) | Text(s: string)

  /** One row of the uploaded table, before the ACV column is known to be numeric. */
  datatype RawStore = RawStore(
    extCode: string, shoId: int, acv: Cell,
    playerId: int, player: string, subplayerId: int, subplayer: string,
    cityId: int, city: string, stateId: int, state: string)

  /** The uploaded table: its column labels and its rows. The value of a field whose
      column is absent is never read. */
  datatype RawTable = RawTable(columns: seq<string>, rows: seq<RawStore>)

  /** One store of the universe with an integer ACV. */
  datatype Store = Store(
    extCode: string, shoId: int, acv: int,
    playerId: int, player: string, subplayerId: int, subplayer: string,
    cityId: int, city: string, stateId: int, state: string)

  /** The eleven labels every universe table must carry, in the order they are reported. */
  const RequiredColumns: seq<string> :=
    ["SHO_EXTERNAL_CODE", "SHO_ID", "ACV", "Player_ID", "Player", "Subplayer_ID",
     "Subplayer", "City_ID", "City", "State_ID", "State"]

  /** The required labels absent from the table, in the order they are required. */
  function MissingColumns(required: seq<string>, columns: seq<string>): seq<string>
  {
    Filter(required, c => c !in columns)
  }

  /** A label is reported missing exactly when it is required and absent, so nothing is
      reported exactly when every required label is present. */
  lemma MissingColumnsMeaning(required: seq<string>, columns: seq<string>)
    ensures forall c :: c in MissingColumns(required, columns) <==> c in required && c !in columns
    ensures MissingColumns(required, columns) == [] <==> forall c :: c in required ==> c in columns
  {
    var r := MissingColumns(required, columns);
    if r != [] {
      assert r[0] in r;
    }
  }

  // ---- casting the ACV column to integers ----

  predicate IsDigit(ch: char) { '0' <= ch <= '9' }

  predicate AllDigits(s: string) { forall i :: 0 <= i < |s| ==> IsDigit(s[i]) }

  /** The characters str.isspace() accepts, which int() strips from both ends. */
  predicate IsSpace(ch: char)
  {
    || '\t' <= ch <= '\r' || '\U{1C}' <= ch <= ' ' || ch == '\U{85}' || ch == '\U{A0}'
    || ch == '\U{1680}' || '\U{2000}' <= ch <= '\U{200A}' || ch == '\U{2028}' || ch == '\U{2029}'
    || ch == '\U{202F}' || ch == '\U{205F}' || ch == '\U{3000}'
  }

  predicate AllSpace(s: string) { forall i :: 0 <= i < |s| ==> IsSpace(s[i]) }

  function StripLeft(s: string): (r: string)
    ensures r == [] || !IsSpace(r[0])
  {
    if s != [] && IsSpace(s[0]) then StripLeft(s[1..]) else s
  }

  function StripRight(s: string): (r: string)
    ensures r == [] || !IsSpace(r[|r| - 1])
  {
    if s != [] && IsSpace(s[|s| - 1]) then StripRight(s[..|s| - 1]) else s
  }

  /** str.strip(): the text without its leading and trailing whitespace. */
  function Strip(s: string): string { StripRight(StripLeft(s)) }

  /** A decimal literal as int() reads it: digits, where a single underscore may stand
      between two digits. */
  predicate Numeral(s: string)
  {
    && |s| > 0 && IsDigit(s[0])
    && forall i :: 0 <= i < |s| ==> NumeralChar(s, i)
  }

  /** The character at i is a digit, or an underscore followed by a digit. */
  predicate NumeralChar(s: string, i: nat)
    requires i < |s|
  {
    IsDigit(s[i]) || (s[i] == '_' && i + 1 < |s| && IsDigit(s[i + 1]))
  }

  /** The value of the digits of s, underscores skipped. */
  function NumeralValue(s: string): nat
  {
    if s == [] then 0
    else
      var c := s[|s| - 1];
      if IsDigit(c) then NumeralValue(s[..|s| - 1]) * 10 + (c as int - '0' as int) else NumeralValue(s[..|s| - 1])
  }

  /** Python's int() applied to a text cell: surrounding whitespace is stripped, then an
      optional sign and a decimal literal; anything else is the ValueError of the cast. */
  function ParseInt(s: string): Option<int>
  {
    var t := Strip(s);
    if |t| > 1 && (t[0] == '-' || t[0] == '+') && Numeral(t[1..]) then
      var v: int := NumeralValue(t[1..]);
      Some(if t[0] == '-' then -v else v)
    else if Numeral(t) then Some(NumeralValue(t))
    else None
  }

  /** The decimal numeral of n, the form in which a number written as text is read back. */
  function Digits(n: nat): (r: string)
    ensures |r| > 0 && AllDigits(r)
  {
    if n < 10 then [('0' as int + n) as char] else Digits(n / 10) + [('0' as int + n % 10) as char]
  }

  function FormatInt(n: int): (r: string)
    ensures |r| > 0 && !IsSpace(r[0]) && IsDigit(r[|r| - 1])
  {
    if n < 0 then "-" + Digits(-n) else Digits(n)
  }

  lemma {:induction false} DigitsRoundTrip(n: nat)
    ensures Numeral(Digits(n)) && NumeralValue(Digits(n)) == n
  {
    if n >= 10 {
      DigitsRoundTrip(n / 10);
      var d := Digits(n);
      assert d[..|d| - 1] == Digits(n / 10);
    }
  }

  /** Every integer written as a decimal numeral casts back to itself. */
  lemma ParseFormat(n: int)
    ensures ParseInt(FormatInt(n)) == Some(n)
  {
    var f := FormatInt(n);
    assert StripLeft(f) == f;
    assert StripRight(f) == f;
    if n < 0 {
      DigitsRoundTrip(-n);
      assert f[1..] == Digits(-n);
    } else {
      DigitsRoundTrip(n);
    }
  }

  lemma {:induction false} StripLeftSpace(w: string, t: string)
    requires AllSpace(w)
    ensures StripLeft(w + t) == StripLeft(t)
  {
    if w != [] {
      assert (w + t)[0] == w[0] && IsSpace(w[0]);
      assert (w + t)[1..] == w[1..] + t;
      StripLeftSpace(w[1..], t);
    } else {
      assert w + t == t;
    }
  }

  lemma {:induction false} StripRightSpace(t: string, w: string)
    requires AllSpace(w)
    ensures StripRight(t + w) == StripRight(t)
  {
    if w != [] {
      assert (t + w)[|t + w| - 1] == w[|w| - 1] && IsSpace(w[|w| - 1]);
      assert (t + w)[..|t + w| - 1] == t + w[..|w| - 1];
      StripRightSpace(t, w[..|w| - 1]);
    } else {
      assert t + w == t;
    }
  }

  /** Whitespace around a numeral does not stop the cast, and does not change the value. */
  lemma ParsePadded(n: int, before: string, after: string)
    requires AllSpace(before) && AllSpace(after)
    ensures ParseInt(before + FormatInt(n) + after) == Some(n)
  {
    var f := FormatInt(n);
    assert before + f + after == before + (f + after);
    StripLeftSpace(before, f + after);
    assert StripLeft(f + after) == f + after;
    StripRightSpace(f, after);
    assert StripRight(f) == f;
    ParseFormat(n);
  }

  lemma NotNumeralAt(s: string, i: nat)
    requires i < |s| && !NumeralChar(s, i)
    ensures !Numeral(s)
  {
  }

  /** Underscores between digits are accepted and skipped. */
  lemma ParseUnderscore()
    ensures ParseInt("1_000") == Some(1000)
  {
    var u := "1_000";
    assert StripLeft(u) == u && StripRight(u) == u;
    assert Numeral(u) by {
      forall i | 0 <= i < |u| ensures NumeralChar(u, i) {
      }
    }
    assert NumeralValue(u) == 1000 by {
      assert u[..4] == "1_00" && "1_00"[..3] == "1_0" && "1_0"[..2] == "1_" && "1_"[..1] == "1";
    }
  }

  /** An underscore that does not stand between two digits is refused. */
  lemma ParseRefusesUnderscores()
    ensures ParseInt("1__000") == None && ParseInt("_1") == None && ParseInt("1_") == None
  {
    assert StripLeft("1__000") == "1__000" && StripRight("1__000") == "1__000";
    NotNumeralAt("1__000", 1);
    assert StripLeft("_1") == "_1" && StripRight("_1") == "_1";
    assert StripLeft("1_") == "1_" && StripRight("1_") == "1_";
    NotNumeralAt("1_", 1);
  }

  /** A fraction, a sign apart from its digits, or empty text is refused. */
  lemma ParseRefusesOthers()
    ensures ParseInt("12.5") == None && ParseInt("- 12") == None && ParseInt("") == None
  {
    assert StripLeft("12.5") == "12.5" && StripRight("12.5") == "12.5";
    NotNumeralAt("12.5", 2);
    NotNumeralAt("2.5", 1);
    assert "12.5"[1..] == "2.5";
    assert StripLeft("- 12") == "- 12" && StripRight("- 12") == "- 12";
    assert "- 12"[1..] == " 12";
  }

  /** The range of numpy's int64, the dtype astype(int) casts to. */
  predicate InInt64(v: int) { -0x8000_0000_0000_0000 <= v < 0x8000_0000_0000_0000 }

  /** astype(int) on one cell: a number stays; text goes through int(), and a value that
      does not fit int64 is the cast's OverflowError. */
  predicate CellCastable(c: Cell) { c.Num? || (ParseInt(c.s).Some? && InInt64(ParseInt(c.s).value)) }

  function CellValue(c: Cell): int
    requires CellCastable(c)
  {
    if c.Num? then c.n else ParseInt(c.s).value
  }

  /** A numeral, padded or not, casts to its value exactly when that value fits int64. */
  lemma CastNumeral(n: int, before: string, after: string)
    requires AllSpace(before) && AllSpace(after)
    ensures CellCastable(Text(before + FormatInt(n) + after)) <==> InInt64(n)
    ensures InInt64(n) ==> CellValue(Text(before + FormatInt(n) + after)) == n
  {
    ParsePadded(n, before, after);
  }

  /** The ACV column already has a numeric dtype. */
  predicate AcvIsNumeric(rows: seq<RawStore>)
  {
    forall i :: 0 <= i < |rows| ==> rows[i].acv.Num?
  }

  /** astype(int) succeeds on the ACV column. */
  predicate AcvCastable(rows: seq<RawStore>)
  {
    forall i :: 0 <= i < |rows| ==> CellCastable(rows[i].acv)
  }

  /** The table after self.data['ACV'] = self.data.ACV.astype(int). */
  function CastAcv(rows: seq<RawStore>): (r: seq<RawStore>)
    requires AcvCastable(rows)
    ensures |r| == |rows| && AcvIsNumeric(r)
  {
    if rows == [] then []
    else
      var last := rows[|rows| - 1];
      CastAcv(rows[..|rows| - 1]) + [last.(acv := Num(CellValue(last.acv)))]
  }

  function ToStore(x: RawStore): Store
    requires x.acv.Num?
  {
    Store(x.extCode, x.shoId, x.acv.n, x.playerId, x.player, x.subplayerId, x.subplayer,
          x.cityId, x.city, x.stateId, x.state)
  }

  function ToRaw(x: Store): RawStore
  {
    RawStore(x.extCode, x.shoId, Num(x.acv), x.playerId, x.player, x.subplayerId, x.subplayer,
             x.cityId, x.city, x.stateId, x.state)
  }

  /** The stores of a table whose ACV column is numeric. */
  function Typed(rows: seq<RawStore>): (r: seq<Store>)
    requires AcvIsNumeric(rows)
    ensures |r| == |rows|
  {
    if rows == [] then [] else Typed(rows[..|rows| - 1]) + [ToStore(rows[|rows| - 1])]
  }

  /** The cast changes the ACV cell of each row and nothing else. */
  lemma {:induction false} CastPointwise(rows: seq<RawStore>)
    requires AcvCastable(rows)
    ensures forall i :: 0 <= i < |rows| ==> CastAcv(rows)[i] == rows[i].(acv := Num(CellValue(rows[i].acv)))
  {
    if rows != [] {
      var init := rows[..|rows| - 1];
      assert AcvCastable(init) by {
        forall i | 0 <= i < |init| ensures CellCastable(init[i].acv) {
          assert init[i] == rows[i];
        }
      }
      CastPointwise(init);
    }
  }

  /** The i-th store is the i-th row read with its numeric ACV. */
  lemma {:induction false} TypedPointwise(rows: seq<RawStore>)
    requires AcvIsNumeric(rows)
    ensures forall i :: 0 <= i < |rows| ==> Typed(rows)[i] == ToStore(rows[i])
  {
    if rows != [] {
      var init := rows[..|rows| - 1];
      assert AcvIsNumeric(init) by {
        forall i | 0 <= i < |init| ensures init[i].acv.Num? {
          assert init[i] == rows[i];
        }
      }
      TypedPointwise(init);
    }
  }

  /** A typed store table handed back as a raw table, as when a new Universe_Structure is
      built on a slice of an already checked table. */
  function Untyped(stores: seq<Store>): (r: seq<RawStore>)
    ensures |r| == |stores| && AcvIsNumeric(r)
  {
    if stores == [] then [] else Untyped(stores[..|stores| - 1]) + [ToRaw(stores[|stores| - 1])]
  }

  /** Handing typed stores over as a raw table loses nothing. */
  lemma {:induction false} TypedUntyped(stores: seq<Store>)
    ensures Typed(Untyped(stores)) == stores
  {
    if stores != [] {
      var init := stores[..|stores| - 1];
      TypedUntyped(init);
      var r := Untyped(stores);
      assert r[..|r| - 1] == Untyped(init);
      assert stores == init + [stores[|stores| - 1]];
    }
  }

  // ---- the four groupings ----

  /** The four fixed groupings (case_settings). */
  datatype Case = Retailer | State | City | Detailed

  /** The grouping columns of a row; columns outside the grouping are blanked, so two
      stores have the same key exactly when they agree on the grouping columns. */
  datatype Key = Key(
    stateId: int, state: string, cityId: int, city: string,
    playerId: int, player: string, subplayerId: int, subplayer: string)

  function KeyOf(c: Case, s: Store): Key
  {
    match c
    case Retailer => Key(0, "", 0, "", s.playerId, s.player, s.subplayerId, s.subplayer)
    case State => Key(s.stateId, s.state, 0, "", 0, "", 0, "")
    case City => Key(0, "", s.cityId, s.city, 0, "", 0, "")
    case Detailed => Key(s.stateId, s.state, s.cityId, s.city, s.playerId, s.player, s.subplayerId, s.subplayer)
  }

  function KeyFn(c: Case): Store -> Key { s => KeyOf(c, s) }

  function Acv(s: Store): int { s.acv }

  function One(s: Store): int { 1 }

  /** The distinct group keys of the stores. */
  function GroupKeys(c: Case, stores: seq<Store>): seq<Key>
  {
    Distinct(Map(stores, KeyFn(c)))
  }

  /** groupby(group_cols).sum() of the ACV column, for one group. */
  function GroupAcv(c: Case, stores: seq<Store>, k: Key): int
  {
    KeySum(stores, KeyFn(c), k, Acv)
  }

  /** groupby(group_cols).count() of the SHO_ID column, for one group. */
  function GroupCount(c: Case, stores: seq<Store>, k: Key): int
  {
    KeySum(stores, KeyFn(c), k, One)
  }

  /** One row of the ACV breakdown; weights and cumulative sums in hundredths of a percent. */
  datatype AcvRow = AcvRow(key: Key, acv: int, acvWeight: int, acvCum: int)

  /** One row of the store-count breakdown before it is joined to the ACV breakdown. */
  datatype CountRow = CountRow(key: Key, storeCount: int, storeWeight: int)

  /** One row of a structure table (sample_structure). */
  datatype StratumRow = StratumRow(
    key: Key, acv: int, acvWeight: int, acvCum: int,
    storeCount: int, storeWeight: int, storeCum: int)

  function AcvRowKey(r: AcvRow): Key { r.key }
  function AcvRowAcv(r: AcvRow): int { r.acv }
  function AcvRowWeight(r: AcvRow): int { r.acvWeight }
  function RowKey(r: StratumRow): Key { r.key }
  function RowAcv(r: StratumRow): int { r.acv }
  function RowCount(r: StratumRow): int { r.storeCount }

  /** The grouped ACV table, before sorting; its cumulative column is not yet filled (0). */
  function AcvGroups(c: Case, stores: seq<Store>, universeAcv: int): (r: seq<AcvRow>)
    requires universeAcv != 0 || stores == []
  {
    var ks := GroupKeys(c, stores);
    seq(|ks|, i requires 0 <= i < |ks| =>
      AcvRow(ks[i], GroupAcv(c, stores, ks[i]), Pct(GroupAcv(c, stores, ks[i]), universeAcv), 0))
  }

  /** Fills the cumulative ACV column: the running ACV sum over the current row order,
      as a rounded percentage of the universe ACV. */
  function WithAcvCum(rows: seq<AcvRow>, universeAcv: int): (r: seq<AcvRow>)
    requires universeAcv != 0 || rows == []
  {
    seq(|rows|, i requires 0 <= i < |rows| =>
      rows[i].(acvCum := Pct(Sum(rows[..i + 1], AcvRowAcv), universeAcv)))
  }

  /** acv_structure: group, weigh, sort by descending ACV weight, and only then accumulate. */
  function AcvStructure(c: Case, stores: seq<Store>, universeAcv: int): seq<AcvRow>
    requires universeAcv != 0 || stores == []
  {
    WithAcvCum(SortDescending(AcvGroups(c, stores, universeAcv), AcvRowWeight), universeAcv)
  }

  /** The grouped store-count table with its weights. */
  function CountGroups(c: Case, stores: seq<Store>, universeN: int): seq<CountRow>
    requires universeN != 0 || stores == []
  {
    var ks := GroupKeys(c, stores);
    seq(|ks|, i requires 0 <= i < |ks| =>
      CountRow(ks[i], GroupCount(c, stores, ks[i]), Pct(GroupCount(c, stores, ks[i]), universeN)))
  }

  /** The first count row with key k. */
  function FindCount(rows: seq<CountRow>, k: Key): (r: Option<CountRow>)
    ensures r.Some? ==> r.value in rows && r.value.key == k
    ensures r.None? <==> forall i :: 0 <= i < |rows| ==> rows[i].key != k
  {
    if rows == [] then None else if rows[0].key == k then Some(rows[0]) else FindCount(rows[1..], k)
  }

  function Combine(a: AcvRow, n: CountRow): StratumRow
  {
    StratumRow(a.key, a.acv, a.acvWeight, a.acvCum, n.storeCount, n.storeWeight, 0)
  }

  /** pd.merge(acv, counts, on=group_cols): an inner join that keeps the order of the ACV rows. */
  function Join(acv: seq<AcvRow>, counts: seq<CountRow>): (r: seq<StratumRow>)
    ensures |r| <= |acv|
  {
    if acv == [] then []
    else
      var rest := Join(acv[1..], counts);
      match FindCount(counts, acv[0].key)
      case None => rest
      case Some(n) => [Combine(acv[0], n)] + rest
  }

  /** Fills the cumulative store column: the running store count over the inherited ACV order. */
  function WithStoreCum(rows: seq<StratumRow>, universeN: int): (r: seq<StratumRow>)
    requires universeN != 0 || rows == []
  {
    seq(|rows|, i requires 0 <= i < |rows| =>
      rows[i].(storeCum := Pct(Sum(rows[..i + 1], RowCount), universeN)))
  }

  /** sample_structure: the ACV breakdown joined with the store counts, then the store
      cumulative column accumulated in the order of the ACV weights. */
  function SampleStructure(c: Case, stores: seq<Store>, universeAcv: int, universeN: int): seq<StratumRow>
    requires (universeAcv != 0 && universeN != 0) || stores == []
  {
    var joined := Join(AcvStructure(c, stores, universeAcv), CountGroups(c, stores, universeN));
    WithStoreCum(joined, universeN)
  }

  /** The four breakdowns get_structure computes. */
  datatype Structures = Structures(
    retail: seq<StratumRow>, state: seq<StratumRow>, city: seq<StratumRow>, detailed: seq<StratumRow>)

  /** A universe whose percentages are defined: no stores, or a non-zero ACV total. */
  predicate Measurable(stores: seq<Store>)
  {
    stores == [] || Sum(stores, Acv) != 0
  }

  function AllStructures(stores: seq<Store>): Structures
    requires Measurable(stores)
  {
    var u, n := Sum(stores, Acv), |stores|;
    Structures(SampleStructure(Retailer, stores, u, n), SampleStructure(State, stores, u, n),
               SampleStructure(City, stores, u, n), SampleStructure(Detailed, stores, u, n))
  }

  // ---- what the breakdowns satisfy ----

  lemma {:induction false} SumOfOnes(s: seq<Store>)
    ensures Sum(s, One) == |s|
  {
    if s != [] {
      SumOfOnes(s[..|s| - 1]);
    }
  }


  /** Summing g's group sums over the keys is summing the function k => group sum of k. */
  function GroupSumFn(stores: seq<Store>, key: Store -> Key, g: Store -> int): Key -> int
  {
    k => KeySum(stores, key, k, g)
  }

  lemma {:induction false} KeysSumIsSum(stores: seq<Store>, key: Store -> Key, ks: seq<Key>, g: Store -> int)
    ensures KeysSum(stores, key, ks, g) == Sum(ks, GroupSumFn(stores, key, g))
  {
    if ks != [] {
      KeysSumIsSum(stores, key, ks[..|ks| - 1], g);
    }
  }

  /** Rows whose keys are the distinct group keys in any order, each carrying its group's
      sum of g, add up to the total of g over the stores. */
  lemma GroupedTotal<R>(c: Case, stores: seq<Store>, rows: seq<R>, rowKey: R -> Key, value: R -> int, g: Store -> int)
    requires multiset(Map(rows, rowKey)) == multiset(GroupKeys(c, stores))
    requires forall i :: 0 <= i < |rows| ==> value(rows[i]) == KeySum(stores, KeyFn(c), rowKey(rows[i]), g)
    ensures Sum(rows, value) == Sum(stores, g)
  {
    var ks := Map(rows, rowKey);
    SumPointwise(rows, value, ks, GroupSumFn(stores, KeyFn(c), g));
    SumPermutation(ks, GroupKeys(c, stores), GroupSumFn(stores, KeyFn(c), g));
    KeysSumIsSum(stores, KeyFn(c), GroupKeys(c, stores), g);
    DistinctKeysSum(stores, KeyFn(c), g);
  }

  /** acv_structure has exactly one row per distinct group key. */
  lemma AcvStructureKeys(c: Case, stores: seq<Store>, universeAcv: int)
    requires universeAcv != 0 || stores == []
    ensures var r := AcvStructure(c, stores, universeAcv);
      && |r| == |GroupKeys(c, stores)|
      && multiset(Map(r, AcvRowKey)) == multiset(GroupKeys(c, stores))
      && NoDup(Map(r, AcvRowKey))
  {
    var grouped := AcvGroups(c, stores, universeAcv);
    var sorted := SortDescending(grouped, AcvRowWeight);
    var r := AcvStructure(c, stores, universeAcv);
    assert Map(grouped, AcvRowKey) == GroupKeys(c, stores);
    MapPermutation(grouped, sorted, AcvRowKey);
    assert Map(r, AcvRowKey) == Map(sorted, AcvRowKey);
    NoDupPermutation(GroupKeys(c, stores), Map(r, AcvRowKey));
  }

  /** Each row of acv_structure carries its group's ACV sum and that sum's rounded share. */
  lemma AcvStructureRows(c: Case, stores: seq<Store>, universeAcv: int)
    requires universeAcv != 0 || stores == []
    ensures var r := AcvStructure(c, stores, universeAcv);
      forall i :: 0 <= i < |r| ==> r[i].acv == GroupAcv(c, stores, r[i].key) && r[i].acvWeight == Pct(r[i].acv, universeAcv)
  {
    var grouped := AcvGroups(c, stores, universeAcv);
    var sorted := SortDescending(grouped, AcvRowWeight);
    var r := AcvStructure(c, stores, universeAcv);
    forall i | 0 <= i < |r| ensures r[i].acv == GroupAcv(c, stores, r[i].key) && r[i].acvWeight == Pct(r[i].acv, universeAcv) {
      assert r[i].key == sorted[i].key && r[i].acv == sorted[i].acv && r[i].acvWeight == sorted[i].acvWeight;
      assert sorted[i] in multiset(grouped);
      var j :| 0 <= j < |grouped| && grouped[j] == sorted[i];
    }
  }

  /** acv_structure lists its rows by non-increasing ACV weight. */
  lemma AcvStructureOrder(c: Case, stores: seq<Store>, universeAcv: int)
    requires universeAcv != 0 || stores == []
    ensures NonIncreasing(AcvStructure(c, stores, universeAcv), AcvRowWeight)
  {
    var sorted := SortDescending(AcvGroups(c, stores, universeAcv), AcvRowWeight);
    var r := AcvStructure(c, stores, universeAcv);
    forall i, j | 0 <= i < j < |r| ensures AcvRowWeight(r[i]) >= AcvRowWeight(r[j]) {
      assert AcvRowWeight(sorted[i]) >= AcvRowWeight(sorted[j]);
    }
  }

  /** The cumulative ACV column of acv_structure is the rounded running ACV sum over its own order. */
  lemma AcvStructureCum(c: Case, stores: seq<Store>, universeAcv: int)
    requires universeAcv != 0 || stores == []
    ensures var r := AcvStructure(c, stores, universeAcv);
      forall i :: 0 <= i < |r| ==> r[i].acvCum == Pct(Sum(r[..i + 1], AcvRowAcv), universeAcv)
  {
    var sorted := SortDescending(AcvGroups(c, stores, universeAcv), AcvRowWeight);
    WithAcvCumRunning(sorted, universeAcv);
  }

  /** The filled column is the running share of the rows as they now stand. */
  lemma WithAcvCumRunning(rows: seq<AcvRow>, universeAcv: int)
    requires universeAcv != 0 || rows == []
    ensures var r := WithAcvCum(rows, universeAcv);
      forall i :: 0 <= i < |r| ==> r[i].acvCum == Pct(Sum(r[..i + 1], AcvRowAcv), universeAcv)
  {
    forall i | 0 <= i < |rows|
      ensures WithAcvCum(rows, universeAcv)[i].acvCum == Pct(Sum(WithAcvCum(rows, universeAcv)[..i + 1], AcvRowAcv), universeAcv)
    {
      WithAcvCumAt(rows, universeAcv, i);
    }
  }

  lemma WithAcvCumAt(rows: seq<AcvRow>, universeAcv: int, i: nat)
    requires universeAcv != 0 && i < |rows|
    ensures Sum(WithAcvCum(rows, universeAcv)[..i + 1], AcvRowAcv) == Sum(rows[..i + 1], AcvRowAcv)
  {
    var r := WithAcvCum(rows, universeAcv);
    SumPointwise(r[..i + 1], AcvRowAcv, rows[..i + 1], AcvRowAcv);
  }

  /** acv_structure: one row per distinct group key, carrying the group's ACV sum and its
      rounded weight, ordered by non-increasing weight, with the cumulative column the
      rounded running ACV sum over that order; the ACV sums add up to the total ACV. */
  lemma AcvStructureFacts(c: Case, stores: seq<Store>, universeAcv: int)
    requires universeAcv != 0 || stores == []
    ensures var r := AcvStructure(c, stores, universeAcv);
      && |r| == |GroupKeys(c, stores)|
      && multiset(Map(r, AcvRowKey)) == multiset(GroupKeys(c, stores))
      && NoDup(Map(r, AcvRowKey))
      && (forall i :: 0 <= i < |r| ==> r[i].acv == GroupAcv(c, stores, r[i].key) && r[i].acvWeight == Pct(r[i].acv, universeAcv))
      && NonIncreasing(r, AcvRowWeight)
      && (forall i :: 0 <= i < |r| ==> r[i].acvCum == Pct(Sum(r[..i + 1], AcvRowAcv), universeAcv))
      && Sum(r, AcvRowAcv) == Sum(stores, Acv)
  {
    var r := AcvStructure(c, stores, universeAcv);
    AcvStructureKeys(c, stores, universeAcv);
    AcvStructureRows(c, stores, universeAcv);
    AcvStructureOrder(c, stores, universeAcv);
    AcvStructureCum(c, stores, universeAcv);
    GroupedTotal(c, stores, r, AcvRowKey, AcvRowAcv, Acv);
  }

  lemma {:induction false} JoinMatched(acv: seq<AcvRow>, counts: seq<CountRow>)
    requires forall i :: 0 <= i < |acv| ==> FindCount(counts, acv[i].key).Some?
    ensures |Join(acv, counts)| == |acv|
    ensures forall i :: 0 <= i < |acv| ==> Join(acv, counts)[i] == Combine(acv[i], FindCount(counts, acv[i].key).value)
  {
    if acv != [] {
      JoinMatched(acv[1..], counts);
    }
  }

  /** Looking up a group key among the store counts finds that group's count and share. */
  lemma CountLookup(c: Case, stores: seq<Store>, universeN: int, k: Key)
    requires universeN != 0 || stores == []
    requires k in GroupKeys(c, stores)
    ensures FindCount(CountGroups(c, stores, universeN), k)
      == Some(CountRow(k, GroupCount(c, stores, k), Pct(GroupCount(c, stores, k), universeN)))
  {
    var counts := CountGroups(c, stores, universeN);
    var ks := GroupKeys(c, stores);
    var j :| 0 <= j < |ks| && ks[j] == k;
    assert counts[j].key == k;
    var v := FindCount(counts, k).value;
    var m :| 0 <= m < |counts| && counts[m] == v;
  }

  /** Every row of the ACV breakdown finds its store count, so the join keeps all rows in the ACV order. */
  lemma JoinedStructure(c: Case, stores: seq<Store>, universeAcv: int, universeN: int)
    requires (universeAcv != 0 && universeN != 0) || stores == []
    ensures var a := AcvStructure(c, stores, universeAcv);
      var joined := Join(a, CountGroups(c, stores, universeN));
      && |joined| == |a|
      && (forall i :: 0 <= i < |a| ==>
            joined[i] == Combine(a[i], CountRow(a[i].key, GroupCount(c, stores, a[i].key), Pct(GroupCount(c, stores, a[i].key), universeN))))
  {
    var a := AcvStructure(c, stores, universeAcv);
    var counts := CountGroups(c, stores, universeN);
    AcvStructureKeys(c, stores, universeAcv);
    forall i | 0 <= i < |a|
      ensures FindCount(counts, a[i].key)
        == Some(CountRow(a[i].key, GroupCount(c, stores, a[i].key), Pct(GroupCount(c, stores, a[i].key), universeN)))
    {
      assert AcvRowKey(a[i]) in Map(a, AcvRowKey);
      assert a[i].key in multiset(GroupKeys(c, stores));
      CountLookup(c, stores, universeN, a[i].key);
    }
    JoinMatched(a, counts);
  }

  /** The rows of sample_structure: those of acv_structure, in its order, each with its
      group's store count and share, and the running store count over that order. */
  lemma SampleStructureRows(c: Case, stores: seq<Store>, universeAcv: int, universeN: int)
    requires (universeAcv != 0 && universeN != 0) || stores == []
    ensures var a := AcvStructure(c, stores, universeAcv);
      var r := SampleStructure(c, stores, universeAcv, universeN);
      && |r| == |a|
      && (forall i :: 0 <= i < |r| ==>
            && r[i].key == a[i].key && r[i].acv == a[i].acv
            && r[i].acvWeight == a[i].acvWeight && r[i].acvCum == a[i].acvCum
            && r[i].storeCount == GroupCount(c, stores, r[i].key)
            && r[i].storeWeight == Pct(r[i].storeCount, universeN)
            && r[i].storeCum == Pct(Sum(r[..i + 1], RowCount), universeN))
  {
    var joined := Join(AcvStructure(c, stores, universeAcv), CountGroups(c, stores, universeN));
    JoinedStructure(c, stores, universeAcv, universeN);
    WithStoreCumRunning(joined, universeN);
  }

  /** Filling the store column keeps every other column, and the filled column is the
      running share of the rows as they now stand. */
  lemma WithStoreCumRunning(rows: seq<StratumRow>, universeN: int)
    requires universeN != 0 || rows == []
    ensures var r := WithStoreCum(rows, universeN);
      && |r| == |rows|
      && (forall i :: 0 <= i < |r| ==> r[i] == rows[i].(storeCum := r[i].storeCum))
      && (forall i :: 0 <= i < |r| ==> r[i].storeCum == Pct(Sum(r[..i + 1], RowCount), universeN))
  {
    forall i | 0 <= i < |rows|
      ensures WithStoreCum(rows, universeN)[i].storeCum == Pct(Sum(WithStoreCum(rows, universeN)[..i + 1], RowCount), universeN)
    {
      WithStoreCumAt(rows, universeN, i);
    }
  }

  lemma WithStoreCumAt(rows: seq<StratumRow>, universeN: int, i: nat)
    requires universeN != 0 && i < |rows|
    ensures Sum(WithStoreCum(rows, universeN)[..i + 1], RowCount) == Sum(rows[..i + 1], RowCount)
  {
    var r := WithStoreCum(rows, universeN);
    SumPointwise(r[..i + 1], RowCount, rows[..i + 1], RowCount);
  }

  /** sample_structure has exactly one row per distinct group key. */
  lemma SampleStructureKeys(c: Case, stores: seq<Store>, universeAcv: int, universeN: int)
    requires (universeAcv != 0 && universeN != 0) || stores == []
    ensures var r := SampleStructure(c, stores, universeAcv, universeN);
      && |r| == |GroupKeys(c, stores)|
      && multiset(Map(r, RowKey)) == multiset(GroupKeys(c, stores))
      && NoDup(Map(r, RowKey))
  {
    var a := AcvStructure(c, stores, universeAcv);
    var r := SampleStructure(c, stores, universeAcv, universeN);
    AcvStructureKeys(c, stores, universeAcv);
    SampleStructureRows(c, stores, universeAcv, universeN);
    assert Map(r, RowKey) == Map(a, AcvRowKey);
  }

  /** A non-empty table has a non-empty breakdown. */
  lemma SampleStructureNonEmpty(c: Case, stores: seq<Store>, universeAcv: int, universeN: int)
    requires (universeAcv != 0 && universeN != 0) || stores == []
    ensures stores != [] ==> SampleStructure(c, stores, universeAcv, universeN) != []
  {
    if stores != [] {
      SampleStructureKeys(c, stores, universeAcv, universeN);
      var ks := Map(stores, KeyFn(c));
      assert ks[0] in ks;
      assert ks[0] in GroupKeys(c, stores);
    }
  }

  /** Every row of sample_structure is the group of some store of the table. */
  lemma SampleStructureFromStores(c: Case, stores: seq<Store>, universeAcv: int, universeN: int)
    requires (universeAcv != 0 && universeN != 0) || stores == []
    ensures var r := SampleStructure(c, stores, universeAcv, universeN);
      forall i :: 0 <= i < |r| ==> exists j :: 0 <= j < |stores| && KeyOf(c, stores[j]) == r[i].key
  {
    SampleStructureKeys(c, stores, universeAcv, universeN);
    KeysFromStores(SampleStructure(c, stores, universeAcv, universeN), c, stores);
  }

  lemma KeysFromStores(r: seq<StratumRow>, c: Case, stores: seq<Store>)
    requires multiset(Map(r, RowKey)) == multiset(GroupKeys(c, stores))
    ensures forall i :: 0 <= i < |r| ==> exists j :: 0 <= j < |stores| && KeyOf(c, stores[j]) == r[i].key
  {
    forall i | 0 <= i < |r| ensures exists j :: 0 <= j < |stores| && KeyOf(c, stores[j]) == r[i].key {
      assert RowKey(r[i]) in Map(r, RowKey);
      assert r[i].key in multiset(GroupKeys(c, stores));
      var ks := Map(stores, KeyFn(c));
      assert r[i].key in ks;
      var j :| 0 <= j < |ks| && ks[j] == r[i].key;
      assert KeyOf(c, stores[j]) == r[i].key;
    }
  }

  /** The ACV side of sample_structure: each row carries its group's ACV sum and share,
      the rows are in non-increasing ACV-weight order, and the cumulative ACV column is
      the rounded running ACV sum over that order. */
  lemma SampleStructureAcv(c: Case, stores: seq<Store>, universeAcv: int, universeN: int)
    requires (universeAcv != 0 && universeN != 0) || stores == []
    ensures var r := SampleStructure(c, stores, universeAcv, universeN);
      && (forall i :: 0 <= i < |r| ==> r[i].acv == GroupAcv(c, stores, r[i].key) && r[i].acvWeight == Pct(r[i].acv, universeAcv))
      && (forall i, j :: 0 <= i < j < |r| ==> r[i].acvWeight >= r[j].acvWeight)
      && (forall i :: 0 <= i < |r| ==> r[i].acvCum == Pct(Sum(r[..i + 1], RowAcv), universeAcv))
  {
    var a := AcvStructure(c, stores, universeAcv);
    var r := SampleStructure(c, stores, universeAcv, universeN);
    AcvStructureRows(c, stores, universeAcv);
    AcvStructureOrder(c, stores, universeAcv);
    AcvStructureCum(c, stores, universeAcv);
    SampleStructureRows(c, stores, universeAcv, universeN);
    CarryAcvColumns(r, a, universeAcv, c, stores);
  }

  /** Rows that copy the ACV columns of an ACV breakdown, position by position, satisfy
      what that breakdown satisfies. */
  lemma CarryAcvColumns(r: seq<StratumRow>, a: seq<AcvRow>, universeAcv: int, c: Case, stores: seq<Store>)
    requires universeAcv != 0 || a == []
    requires |r| == |a|
    requires forall i :: 0 <= i < |r| ==>
      r[i].key == a[i].key && r[i].acv == a[i].acv && r[i].acvWeight == a[i].acvWeight && r[i].acvCum == a[i].acvCum
    requires forall i :: 0 <= i < |a| ==> a[i].acv == GroupAcv(c, stores, a[i].key) && a[i].acvWeight == Pct(a[i].acv, universeAcv)
    requires NonIncreasing(a, AcvRowWeight)
    requires forall i :: 0 <= i < |a| ==> a[i].acvCum == Pct(Sum(a[..i + 1], AcvRowAcv), universeAcv)
    ensures forall i :: 0 <= i < |r| ==> r[i].acv == GroupAcv(c, stores, r[i].key) && r[i].acvWeight == Pct(r[i].acv, universeAcv)
    ensures forall i, j :: 0 <= i < j < |r| ==> r[i].acvWeight >= r[j].acvWeight
    ensures forall i :: 0 <= i < |r| ==> r[i].acvCum == Pct(Sum(r[..i + 1], RowAcv), universeAcv)
  {
    forall i, j | 0 <= i < j < |r| ensures r[i].acvWeight >= r[j].acvWeight {
      assert AcvRowWeight(a[i]) >= AcvRowWeight(a[j]);
    }
    forall i | 0 <= i < |r| ensures r[i].acvCum == Pct(Sum(r[..i + 1], RowAcv), universeAcv) {
      SumPointwise(r[..i + 1], RowAcv, a[..i + 1], AcvRowAcv);
    }
  }

  /** The ACV sums of sample_structure add up to the table's total ACV and its store
      counts to the number of stores. */
  lemma SampleStructureTotals(c: Case, stores: seq<Store>, universeAcv: int, universeN: int)
    requires (universeAcv != 0 && universeN != 0) || stores == []
    ensures var r := SampleStructure(c, stores, universeAcv, universeN);
      Sum(r, RowAcv) == Sum(stores, Acv) && Sum(r, RowCount) == |stores|
  {
    var r := SampleStructure(c, stores, universeAcv, universeN);
    SampleStructureKeys(c, stores, universeAcv, universeN);
    SampleStructureAcv(c, stores, universeAcv, universeN);
    SampleStructureRows(c, stores, universeAcv, universeN);
    GroupTotals(r, c, stores);
  }

  /** Rows for the distinct group keys, each carrying its group's ACV sum and store count,
      add up to the total ACV and the number of stores. */
  lemma GroupTotals(r: seq<StratumRow>, c: Case, stores: seq<Store>)
    requires multiset(Map(r, RowKey)) == multiset(GroupKeys(c, stores))
    requires forall i :: 0 <= i < |r| ==> r[i].acv == GroupAcv(c, stores, r[i].key)
    requires forall i :: 0 <= i < |r| ==> r[i].storeCount == GroupCount(c, stores, r[i].key)
    ensures Sum(r, RowAcv) == Sum(stores, Acv) && Sum(r, RowCount) == |stores|
  {
    GroupedTotal(c, stores, r, RowKey, RowAcv, Acv);
    GroupedTotal(c, stores, r, RowKey, RowCount, One);
    SumOfOnes(stores);
  }

  lemma {:induction false} KeySumNonNegative(s: seq<Store>, key: Store -> Key, k: Key, g: Store -> int)
    requires forall i :: 0 <= i < |s| ==> g(s[i]) >= 0
    ensures KeySum(s, key, k, g) >= 0
  {
    if s != [] {
      KeySumNonNegative(s[..|s| - 1], key, k, g);
    }
  }

  /** A column that holds the running sums of non-negative terms, each as a rounded share
      of a positive whole, never decreases, and ends at 100.00 % when the terms add up to
      the whole. */
  lemma RunningShares<T>(r: seq<T>, term: T -> int, cum: T -> int, whole: int)
    requires 0 < whole
    requires forall k :: 0 <= k < |r| ==> term(r[k]) >= 0
    requires forall k :: 0 <= k < |r| ==> cum(r[k]) == Pct(Sum(r[..k + 1], term), whole)
    ensures forall i, j :: 0 <= i <= j < |r| ==> cum(r[i]) <= cum(r[j])
    ensures r != [] && Sum(r, term) == whole ==> cum(r[|r| - 1]) == 10000
  {
    forall i, j | 0 <= i <= j < |r| ensures cum(r[i]) <= cum(r[j]) {
      RunningStep(r, term, whole, i, j);
    }
    if r != [] && Sum(r, term) == whole {
      var last := |r| - 1;
      assert r[..last + 1] == r;
      PctOfWhole(whole);
    }
  }

  lemma RunningStep<T>(r: seq<T>, term: T -> int, whole: int, i: nat, j: nat)
    requires 0 < whole && i <= j < |r|
    requires forall k :: 0 <= k < |r| ==> term(r[k]) >= 0
    ensures Pct(Sum(r[..i + 1], term), whole) <= Pct(Sum(r[..j + 1], term), whole)
  {
    SumPrefixMonotone(r, term, i + 1, j + 1);
    PctMonotone(Sum(r[..i + 1], term), Sum(r[..j + 1], term), whole);
  }

  function RowAcvCum(r: StratumRow): int { r.acvCum }
  function RowStoreCum(r: StratumRow): int { r.storeCum }

  /** With non-negative ACV both cumulative columns never decrease down the table, and
      when the universe totals are this table's own totals both end at 100.00 %. */
  lemma CumulativeColumns(c: Case, stores: seq<Store>)
    requires Measurable(stores)
    requires forall i :: 0 <= i < |stores| ==> stores[i].acv >= 0
    ensures var r := SampleStructure(c, stores, Sum(stores, Acv), |stores|);
      && (forall i, j :: 0 <= i <= j < |r| ==> r[i].acvCum <= r[j].acvCum && r[i].storeCum <= r[j].storeCum)
      && (r != [] ==> r[|r| - 1].acvCum == 10000 && r[|r| - 1].storeCum == 10000)
  {
    var u, n := Sum(stores, Acv), |stores|;
    var r := SampleStructure(c, stores, u, n);
    SampleStructureRows(c, stores, u, n);
    SampleStructureAcv(c, stores, u, n);
    SampleStructureTotals(c, stores, u, n);
    if stores != [] {
      SumNonNegative(stores);
      CumulativeOf(r, c, stores, u, n);
    }
  }

  lemma SumNonNegative(stores: seq<Store>)
    requires forall i :: 0 <= i < |stores| ==> stores[i].acv >= 0
    ensures Sum(stores, Acv) >= 0
  {
    SumPrefixMonotone(stores, Acv, 0, |stores|);
    assert stores[..|stores|] == stores;
  }

  /** The cumulative columns of rows that carry their groups' non-negative ACV sums and
      store counts, accumulated over a positive universe, with the totals as given. */
  lemma CumulativeOf(r: seq<StratumRow>, c: Case, stores: seq<Store>, u: int, n: int)
    requires 0 < u && 0 < n
    requires forall i :: 0 <= i < |stores| ==> stores[i].acv >= 0
    requires forall i :: 0 <= i < |r| ==> r[i].acv == GroupAcv(c, stores, r[i].key)
    requires forall i :: 0 <= i < |r| ==> r[i].storeCount == GroupCount(c, stores, r[i].key)
    requires forall i :: 0 <= i < |r| ==> r[i].acvCum == Pct(Sum(r[..i + 1], RowAcv), u)
    requires forall i :: 0 <= i < |r| ==> r[i].storeCum == Pct(Sum(r[..i + 1], RowCount), n)
    requires Sum(r, RowAcv) == u && Sum(r, RowCount) == n
    ensures forall i, j :: 0 <= i <= j < |r| ==> r[i].acvCum <= r[j].acvCum && r[i].storeCum <= r[j].storeCum
    ensures r != [] ==> r[|r| - 1].acvCum == 10000 && r[|r| - 1].storeCum == 10000
  {
    forall k | 0 <= k < |r| ensures RowAcv(r[k]) >= 0 && RowCount(r[k]) >= 0 {
      KeySumNonNegative(stores, KeyFn(c), r[k].key, Acv);
      KeySumNonNegative(stores, KeyFn(c), r[k].key, One);
    }
    RunningShares(r, RowAcv, RowAcvCum, u);
    RunningShares(r, RowCount, RowStoreCum, n);
  }

  // ---- the Universe_Structure object ----

  /** A table get_structure accepts: every required column present and an ACV column
      that is numeric or casts to integers. */
  predicate Admissible(required: seq<string>, t: RawTable)
  {
    MissingColumns(required, t.columns) == [] && AcvCastable(t.rows)
  }

  /** The table as columns_check leaves it: the ACV column cast to integers. */
  function Checked(t: RawTable): (r: RawTable)
    requires AcvCastable(t.rows)
    ensures AcvIsNumeric(r.rows)
  {
    t.(rows := CastAcv(t.rows))
  }

  /** The stores of an admissible table, once its ACV column is cast. */
  function CheckedStores(t: RawTable): seq<Store>
    requires AcvCastable(t.rows)
  {
    Typed(Checked(t).rows)
  }

  /** What get_structure returns for a table: nothing when the table is rejected or its
      shares are undefined, the four breakdowns of its stores otherwise. */
  function StructuresOf(required: seq<string>, t: RawTable): Option<Structures>
  {
    if !Admissible(required, t) || !Measurable(CheckedStores(t)) then None
    else Some(AllStructures(CheckedStores(t)))
  }

  lemma StructuresAdmissible(required: seq<string>, t: RawTable)
    requires StructuresOf(required, t).Some?
    ensures Admissible(required, t)
  {
  }

  /** Casting an ACV column that is already numeric changes nothing. */
  lemma {:induction false} CastNumericIdentity(rows: seq<RawStore>)
    requires AcvIsNumeric(rows)
    ensures AcvCastable(rows) && CastAcv(rows) == rows
  {
    if rows != [] {
      var init := rows[..|rows| - 1];
      assert AcvIsNumeric(init) by {
        forall i | 0 <= i < |init| ensures init[i].acv.Num? {
          assert init[i] == rows[i];
        }
      }
      CastNumericIdentity(init);
      assert rows == init + [rows[|rows| - 1]];
    }
  }

  /** A universe table together with the breakdowns computed from it. The breakdown
      fields start empty and are set by GetStructure. */
  class UniverseStructure {
    /** The labels columns_check requires. */
    const necessaryColumns: seq<string>
    var data: RawTable
    var universeAcv: int
    var universeN: int
    var retailStructure: seq<StratumRow>
    var stateStructure: seq<StratumRow>
    var cityStructure: seq<StratumRow>
    var detailedStructure: seq<StratumRow>

    constructor(data: RawTable)
      ensures this.data == data && necessaryColumns == RequiredColumns
      ensures universeAcv == 0 && universeN == 0
      ensures retailStructure == [] && stateStructure == [] && cityStructure == [] && detailedStructure == []
    {
      this.data := data;
      necessaryColumns := RequiredColumns;
      universeAcv := 0;
      universeN := 0;
      retailStructure := [];
      stateStructure := [];
      cityStructure := [];
      detailedStructure := [];
    }

    /** columns_check: succeeds exactly on admissible tables, and then leaves the ACV
        column cast to integers; a rejected table is left as it was. */
    method ColumnsCheck() returns (ok: bool)
      modifies this`data
      ensures ok <==> Admissible(necessaryColumns, old(data))
      ensures ok ==> data == Checked(old(data))
      ensures !ok ==> data == old(data)
    {
      var missing := MissingColumns(necessaryColumns, data.columns);
      if |missing| != 0 {
        return false;
      }
      if AcvIsNumeric(data.rows) {
        CastNumericIdentity(data.rows);
        return true;
      }
      if AcvCastable(data.rows) {
        data := data.(rows := CastAcv(data.rows));
        return true;
      }
      return false;
    }

    /** Records the universe totals and the four breakdowns. */
    method Record(acv: int, n: int, s: Structures)
      modifies this`universeAcv, this`universeN
      modifies this`retailStructure, this`stateStructure, this`cityStructure, this`detailedStructure
      ensures universeAcv == acv && universeN == n
      ensures retailStructure == s.retail && stateStructure == s.state
      ensures cityStructure == s.city && detailedStructure == s.detailed
    {
      universeAcv, universeN := acv, n;
      retailStructure, stateStructure, cityStructure, detailedStructure := s.retail, s.state, s.city, s.detailed;
    }

    /** get_structure: on an admissible table with a defined ACV share, records the
        universe totals and the four breakdowns and returns them; otherwise reports
        failure and leaves the breakdowns as they were. */
    method GetStructure() returns (r: Option<Structures>)
      modifies this`data, this`universeAcv, this`universeN
      modifies this`retailStructure, this`stateStructure, this`cityStructure, this`detailedStructure
      ensures data == if Admissible(necessaryColumns, old(data)) then Checked(old(data)) else old(data)
      ensures r == StructuresOf(necessaryColumns, old(data))
      ensures r.Some? ==>
        && universeAcv == Sum(CheckedStores(old(data)), Acv) && universeN == |old(data).rows|
        && retailStructure == r.value.retail && stateStructure == r.value.state
        && cityStructure == r.value.city && detailedStructure == r.value.detailed
      ensures r.None? ==>
        && retailStructure == old(retailStructure) && stateStructure == old(stateStructure)
        && cityStructure == old(cityStructure) && detailedStructure == old(detailedStructure)
    {
      var before := data;
      var ok := ColumnsCheck();
      if !ok {
        return None;
      }
      var stores := CheckedStores(before);
      if !Measurable(stores) {
        universeAcv, universeN := Sum(stores, Acv), |stores|;
        return None;
      }
      var s := AllStructures(stores);
      Record(Sum(stores, Acv), |stores|, s);
      return Some(s);
    }
  }
}
