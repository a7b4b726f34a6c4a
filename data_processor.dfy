/** The data loader of the recording: the column naming and unit conversion
    of the fluorescence table, the upper-cased stimulus table, lookups of a
    region of interest (ROI) or a stimulus, the per-stimulus masks and the
    check of uploaded file names. Reading files is done by pandas and
    appears here as the already parsed columns and rows. */
module DataProcessor {
  import opened Wrappers
  import opened Seqs

  /** `MS_TO_MIN` in config.py: milliseconds per minute. */
  const MsToMin: real := 60000.0

  // ---------------------------------------------------------------------
  // Column names

  function DigitChar(d: nat): char
    requires d < 10
  {
    (48 + d) as char
  }

  function DigitValue(c: char): int
  {
    c as int - 48
  }

  /** `str(n)` for a natural number. */
  function NatToString(n: nat): (s: string)
    ensures |s| >= 1 && forall k :: 0 <= k < |s| ==> '0' <= s[k] <= '9'
  {
    if n < 10 then [DigitChar(n)] else NatToString(n / 10) + [DigitChar(n % 10)]
  }

  /** The value of a string of decimal digits. */
  function ParseNat(s: string): int
  {
    if s == [] then 0 else ParseNat(s[..|s| - 1]) * 10 + DigitValue(s[|s| - 1])
  }

  /** Reading back a rendered number gives the number. */
  lemma {:induction false} ParseNatToString(n: nat)
    ensures ParseNat(NatToString(n)) == n
  {
    var s := NatToString(n);
    if n >= 10 {
      ParseNatToString(n / 10);
      assert s[..|s| - 1] == NatToString(n / 10);
    }
  }

  /** Distinct numbers render as distinct strings. */
  lemma NatToStringInjective(a: nat, b: nat)
    requires NatToString(a) == NatToString(b)
    ensures a == b
  {
    ParseNatToString(a);
    ParseNatToString(b);
  }

  function RoiName(i: nat): string
  {
    "ROI_" + NatToString(i)
  }

  /** The names `load_txt_data` gives to `n` columns: `Time`, then
      `ROI_1` .. `ROI_{n-1}`. */
  function ColumnNames(n: nat): (c: seq<string>)
    requires n >= 1
    ensures |c| == n && c[0] == "Time"
    ensures forall i :: 1 <= i < n ==> c[i] == RoiName(i)
  {
    ["Time"] + seq(n - 1, k requires 0 <= k < n - 1 => RoiName(k + 1))
  }

  /** No two columns share a name. */
  lemma ColumnNamesDistinct(n: nat, i: nat, j: nat)
    requires 1 <= n && i < j < n
    ensures ColumnNames(n)[i] != ColumnNames(n)[j]
  {
    var c := ColumnNames(n);
    if i == 0 {
      assert c[j][0] == 'R' != 'T' == c[i][0];
    } else if c[i] == c[j] {
      assert c[i][4..] == NatToString(i) && c[j][4..] == NatToString(j);
      NatToStringInjective(i, j);
    }
  }

  predicate StartsWith(s: string, prefix: string)
  {
    |prefix| <= |s| && s[..|prefix|] == prefix
  }

  predicate EndsWith(s: string, suffix: string)
  {
    |suffix| <= |s| && s[|s| - |suffix|..] == suffix
  }

  /** The columns whose name starts with `ROI_`, in order. */
  function RoiColumns(cols: seq<string>): (r: seq<string>)
    ensures forall k :: 0 <= k < |r| ==> StartsWith(r[k], "ROI_") && r[k] in cols
    ensures forall c :: c in cols && StartsWith(c, "ROI_") ==> c in r
  {
    if cols == [] then []
    else
      var rest := RoiColumns(cols[1..]);
      assert forall c :: c in cols[1..] ==> c in cols;
      assert forall c :: c in cols ==> c == cols[0] || c in cols[1..];
      if StartsWith(cols[0], "ROI_") then [cols[0]] + rest else rest
  }

  /** Filtering keeps a list whose every name already starts with `ROI_`. */
  lemma {:induction false} RoiColumnsKeepsAll(cols: seq<string>)
    requires forall k :: 0 <= k < |cols| ==> StartsWith(cols[k], "ROI_")
    ensures RoiColumns(cols) == cols
  {
    if cols != [] {
      RoiColumnsKeepsAll(cols[1..]);
    }
  }

  /** After loading, the ROI columns are all the columns but `Time`, in
      order. */
  lemma RoiColumnsOfNames(n: nat)
    requires n >= 1
    ensures RoiColumns(ColumnNames(n)) == ColumnNames(n)[1..]
  {
    var c := ColumnNames(n);
    assert !StartsWith(c[0], "ROI_") by {
      assert c[0][0] == 'T';
    }
    forall k | 0 <= k < |c[1..]| ensures StartsWith(c[1..][k], "ROI_") {
      assert c[1..][k] == RoiName(k + 1);
    }
    RoiColumnsKeepsAll(c[1..]);
  }

  /** The time column converted from milliseconds to minutes. */
  function ToMinutes(t: seq<real>): (r: seq<real>)
    ensures |r| == |t| && forall k :: 0 <= k < |t| ==> r[k] * MsToMin == t[k]
  {
    seq(|t|, k requires 0 <= k < |t| => t[k] / MsToMin)
  }

  // ---------------------------------------------------------------------
  // Upper case

  /** `str.upper` on one character, for the ASCII letters. */
  function UpperChar(c: char): (u: char)
    ensures !('a' <= u <= 'z')
    ensures 'a' <= c <= 'z' ==> u as int == c as int - 32
    ensures !('a' <= c <= 'z') ==> u == c
  {
    if 'a' <= c <= 'z' then (c as int - 32) as char else c
  }

  function Upper(s: string): (r: string)
    ensures |r| == |s| && forall k :: 0 <= k < |s| ==> r[k] == UpperChar(s[k])
  {
    seq(|s|, k requires 0 <= k < |s| => UpperChar(s[k]))
  }

  /** Upper-casing twice is upper-casing once. */
  lemma UpperIdempotent(s: string)
    ensures Upper(Upper(s)) == Upper(s)
  {
  }

  // ---------------------------------------------------------------------
  // Tables

  /** A table by columns: `values[c]` is the column named `columns[c]`. */
  datatype Frame = Frame(columns: seq<string>, values: seq<seq<real>>)

  /** One row of the stimulus table: its name and its start and end times
      in minutes (`inicio`, `fin`). */
  datatype Stimulus = Stimulus(name: string, inicio: real, fin: real)

  /** What `get_stimulus_info` returns. */
  datatype StimulusInfo = StimulusInfo(inicio: real, fin: real, duracion: real)

  /** The stimulus table with its first column upper-cased. */
  function UpperNames(rows: seq<Stimulus>): (r: seq<Stimulus>)
    ensures |r| == |rows|
    ensures forall k :: 0 <= k < |rows| ==> r[k] == rows[k].(name := Upper(rows[k].name))
  {
    seq(|rows|, k requires 0 <= k < |rows| => rows[k].(name := Upper(rows[k].name)))
  }

  /** The first index holding `name` in `names`. */
  function IndexOf(names: seq<string>, name: string): (r: Option<nat>)
    ensures r.None? <==> name !in names
    ensures r.Some? ==> (r.value < |names| && names[r.value] == name &&
      forall k :: 0 <= k < r.value ==> names[k] != name)
  {
    if names == [] then None
    else if names[0] == name then Some(0)
    else
      match IndexOf(names[1..], name)
      case None => None
      case Some(k) => Some(k + 1)
  }

  /** The first row of the stimulus table whose name is `key`. */
  function FirstRow(rows: seq<Stimulus>, key: string): (r: Option<nat>)
    ensures r.None? <==> forall k :: 0 <= k < |rows| ==> rows[k].name != key
    ensures r.Some? ==> (r.value < |rows| && rows[r.value].name == key &&
      forall k :: 0 <= k < r.value ==> rows[k].name != key)
  {
    if rows == [] then None
    else if rows[0].name == key then Some(0)
    else
      match FirstRow(rows[1..], key)
      case None => None
      case Some(k) => Some(k + 1)
  }

  /** The stimulus lookup: the first row whose name equals the upper-cased
      query. */
  function Lookup(rows: seq<Stimulus>, stimulusName: string): (r: Result<StimulusInfo>)
    ensures r.Failure? <==> forall k :: 0 <= k < |rows| ==> rows[k].name != Upper(stimulusName)
    ensures r.Failure? ==> r.error == "Estímulo " + stimulusName + " no encontrado."
    ensures r.Success? ==> exists k :: (0 <= k < |rows| && rows[k].name == Upper(stimulusName) &&
      (forall j :: 0 <= j < k ==> rows[j].name != Upper(stimulusName)) &&
      r.value == StimulusInfo(rows[k].inicio, rows[k].fin, rows[k].fin - rows[k].inicio))
  {
    match FirstRow(rows, Upper(stimulusName))
    case None => Failure("Estímulo " + stimulusName + " no encontrado.")
    case Some(k) => Success(StimulusInfo(rows[k].inicio, rows[k].fin, rows[k].fin - rows[k].inicio))
  }

  /** On a table loaded with upper-cased names, the lookup ignores case: it
      succeeds exactly when some row's name matches the query up to case. */
  lemma LookupIgnoresCase(rows: seq<Stimulus>, stimulusName: string)
    ensures Lookup(UpperNames(rows), stimulusName).Success? <==>
      exists k :: 0 <= k < |rows| && Upper(rows[k].name) == Upper(stimulusName)
  {
    var table := UpperNames(rows);
    if Lookup(table, stimulusName).Failure? {
      forall k | 0 <= k < |rows| ensures Upper(rows[k].name) != Upper(stimulusName) {
        assert table[k].name == Upper(rows[k].name);
      }
    } else {
      var k :| 0 <= k < |table| && table[k].name == Upper(stimulusName);
      assert Upper(rows[k].name) == Upper(stimulusName);
    }
  }

  // ---------------------------------------------------------------------
  // Stimulus masks

  /** The mask of one stimulus: 0 where `inicio <= Time <= fin`, else 1. */
  function StimulusMask(time: seq<real>, inicio: real, fin: real): seq<int>
  {
    seq(|time|, j requires 0 <= j < |time| => if inicio <= time[j] <= fin then 0 else 1)
  }

  /** The element-wise product of two masks. */
  function Times(a: seq<int>, b: seq<int>): (r: seq<int>)
    requires |a| == |b|
    ensures |r| == |a| && forall j :: 0 <= j < |a| ==> r[j] == a[j] * b[j]
  {
    seq(|a|, j requires 0 <= j < |a| => a[j] * b[j])
  }

  /** The masks dictionary after the first `k` rows. */
  function MasksUpTo(time: seq<real>, rows: seq<Stimulus>, k: nat): map<string, seq<int>>
    requires k <= |rows|
  {
    if k == 0 then map[]
    else MasksUpTo(time, rows, k - 1)[rows[k - 1].name := StimulusMask(time, rows[k - 1].inicio, rows[k - 1].fin)]
  }

  /** The running product after the first `k` rows. */
  function TotalUpTo(time: seq<real>, rows: seq<Stimulus>, k: nat): (r: seq<int>)
    requires k <= |rows|
    ensures |r| == |time|
  {
    if k == 0 then Constant(|time|, 1)
    else Times(TotalUpTo(time, rows, k - 1), StimulusMask(time, rows[k - 1].inicio, rows[k - 1].fin))
  }

  /** What `create_stimulus_masks` returns: one mask per stimulus name, and
      under `TOTAL` the product of all of them, written last. */
  function StimulusMasks(time: seq<real>, rows: seq<Stimulus>): map<string, seq<int>>
  {
    MasksUpTo(time, rows, |rows|)["TOTAL" := TotalUpTo(time, rows, |rows|)]
  }

  /** The product is 0 or 1, and 0 exactly at the rows inside at least one
      stimulus interval. */
  lemma {:induction false} TotalMeaning(time: seq<real>, rows: seq<Stimulus>, k: nat, j: nat)
    requires k <= |rows| && j < |time|
    ensures TotalUpTo(time, rows, k)[j] == 0 || TotalUpTo(time, rows, k)[j] == 1
    ensures TotalUpTo(time, rows, k)[j] == 0 <==> exists i :: 0 <= i < k && rows[i].inicio <= time[j] <= rows[i].fin
  {
    if k > 0 {
      TotalMeaning(time, rows, k - 1, j);
    }
  }

  /** A name is a key after `k` rows exactly when one of them carries it,
      and its mask is the one of the last such row. */
  lemma {:induction false} MaskOfLastRow(time: seq<real>, rows: seq<Stimulus>, k: nat, name: string)
    requires k <= |rows|
    ensures name in MasksUpTo(time, rows, k) <==> exists i :: 0 <= i < k && rows[i].name == name
    ensures name in MasksUpTo(time, rows, k) ==> exists i :: (0 <= i < k && rows[i].name == name &&
      (forall l :: i < l < k ==> rows[l].name != name) &&
      MasksUpTo(time, rows, k)[name] == StimulusMask(time, rows[i].inicio, rows[i].fin))
  {
    if k > 0 {
      MaskOfLastRow(time, rows, k - 1, name);
    }
  }

  /** Every mask returned has one 0/1 entry per row of the recording. */
  lemma MasksAreBinary(time: seq<real>, rows: seq<Stimulus>, name: string, j: nat)
    requires name in StimulusMasks(time, rows) && j < |time|
    ensures |StimulusMasks(time, rows)[name]| == |time|
    ensures StimulusMasks(time, rows)[name][j] == 0 || StimulusMasks(time, rows)[name][j] == 1
  {
    if name == "TOTAL" {
      TotalMeaning(time, rows, |rows|, j);
    } else {
      MaskOfLastRow(time, rows, |rows|, name);
    }
  }

  // ---------------------------------------------------------------------
  // The loader

  const NotLoaded := "Datos no cargados. Ejecuta load_txt_data() primero."
  const StimuliNotLoaded := "Datos de estímulos no cargados. Ejecuta load_csv_data() primero."
  const NotLoadedCompletely := "Datos no cargados completamente."

  class CalciumDataLoader {
    var data: Option<Frame>
    var stimuliData: Option<seq<Stimulus>>
    var timeArray: Option<seq<real>>
    var roiColumns: Option<seq<string>>

    /** The fields the fluorescence load sets are set together and agree. */
    predicate Valid()
      reads this
    {
      (data.Some? <==> timeArray.Some?) && (data.Some? <==> roiColumns.Some?) &&
      (data.Some? ==>
        var f := data.value;
        |f.values| >= 1 && f.columns == ColumnNames(|f.values|) &&
        (forall c :: 0 <= c < |f.values| ==> |f.values[c]| == |f.values[0]|) &&
        timeArray.value == f.values[0] && roiColumns.value == f.columns[1..])
    }

    constructor ()
      ensures Valid()
      ensures data == None && stimuliData == None && timeArray == None && roiColumns == None
    {
      data := None;
      stimuliData := None;
      timeArray := None;
      roiColumns := None;
    }

    /** `load_txt_data` after parsing: `raw` holds the parsed columns. The
        columns are renamed, the time converted to minutes, and the time
        array and ROI names kept. */
    method LoadTxtData(raw: seq<seq<real>>) returns (frame: Frame)
      requires |raw| >= 1 && forall c :: 0 <= c < |raw| ==> |raw[c]| == |raw[0]|
      modifies this
      ensures Valid()
      ensures frame == Frame(ColumnNames(|raw|), [ToMinutes(raw[0])] + raw[1..])
      ensures data == Some(frame) && stimuliData == old(stimuliData)
    {
      var columns := ColumnNames(|raw|);
      data := Some(Frame(columns, [ToMinutes(raw[0])] + raw[1..]));
      timeArray := Some(data.value.values[0]);
      roiColumns := Some(RoiColumns(columns));
      RoiColumnsOfNames(|raw|);
      frame := data.value;
    }

    /** `load_csv_data` after parsing: the stimulus names are upper-cased. */
    method LoadCsvData(rows: seq<Stimulus>) returns (table: seq<Stimulus>)
      modifies this
      ensures table == UpperNames(rows) && stimuliData == Some(table)
      ensures data == old(data) && timeArray == old(timeArray) && roiColumns == old(roiColumns)
      ensures old(Valid()) ==> Valid()
    {
      stimuliData := Some(UpperNames(rows));
      table := stimuliData.value;
    }

    /** `load_all_data`: both loads, fluorescence first. */
    method LoadAllData(raw: seq<seq<real>>, rows: seq<Stimulus>) returns (frame: Frame, table: seq<Stimulus>)
      requires |raw| >= 1 && forall c :: 0 <= c < |raw| ==> |raw[c]| == |raw[0]|
      modifies this
      ensures Valid()
      ensures frame == Frame(ColumnNames(|raw|), [ToMinutes(raw[0])] + raw[1..]) && table == UpperNames(rows)
      ensures data == Some(frame) && stimuliData == Some(table)
    {
      frame := LoadTxtData(raw);
      table := LoadCsvData(rows);
    }

    /** `get_roi_data`: the column of that name. */
    function GetRoiData(roiName: string): (r: Result<seq<real>>)
      requires Valid()
      reads this
      ensures data.None? ==> r == Failure(NotLoaded)
      ensures data.Some? && roiName !in data.value.columns ==>
        r == Failure("ROI " + roiName + " no encontrada en los datos.")
      ensures data.Some? && roiName in data.value.columns ==> (r.Success? &&
        exists c :: 0 <= c < |data.value.values| && data.value.columns[c] == roiName && r.value == data.value.values[c])
    {
      if data.None? then Failure(NotLoaded)
      else
        match IndexOf(data.value.columns, roiName)
        case None => Failure("ROI " + roiName + " no encontrada en los datos.")
        case Some(c) => Success(data.value.values[c])
    }

    /** `get_stimulus_info`. */
    function GetStimulusInfo(stimulusName: string): (r: Result<StimulusInfo>)
      reads this
      ensures stimuliData.None? ==> r == Failure(StimuliNotLoaded)
      ensures stimuliData.Some? ==> r == Lookup(stimuliData.value, stimulusName)
    {
      if stimuliData.None? then Failure(StimuliNotLoaded)
      else Lookup(stimuliData.value, stimulusName)
    }

    /** `create_stimulus_masks`: one pass over the stimulus rows, filling the
        dictionary and multiplying each mask into the running product. */
    method CreateStimulusMasks() returns (r: Result<map<string, seq<int>>>)
      requires Valid()
      ensures data.None? || stimuliData.None? ==> r == Failure(NotLoadedCompletely)
      ensures data.Some? && stimuliData.Some? ==> r == Success(StimulusMasks(timeArray.value, stimuliData.value))
    {
      if data.None? || stimuliData.None? {
        return Failure(NotLoadedCompletely);
      }
      var time := timeArray.value;
      var rows := stimuliData.value;
      var n := |time|;
      var masks: map<string, seq<int>> := map[];
      var total := new int[n](_ => 1);
      assert total[..] == Constant(n, 1);
      for k := 0 to |rows|
        invariant masks == MasksUpTo(time, rows, k)
        invariant total[..] == TotalUpTo(time, rows, k)
      {
        var mask := StimulusMask(time, rows[k].inicio, rows[k].fin);
        masks := masks[rows[k].name := mask];
        for j := 0 to n
          invariant forall l :: 0 <= l < j ==> total[l] == TotalUpTo(time, rows, k)[l] * mask[l]
          invariant forall l :: j <= l < n ==> total[l] == TotalUpTo(time, rows, k)[l]
        {
          total[j] := total[j] * mask[j];
        }
        assert total[..] == TotalUpTo(time, rows, k + 1);
      }
      masks := masks["TOTAL" := total[..]];
      return Success(masks);
    }
  }

  /** Accessing a ROI by its name returns that column. */
  lemma RoiByName(loader: CalciumDataLoader, i: nat)
    requires loader.Valid() && loader.data.Some? && 1 <= i < |loader.data.value.values|
    ensures loader.GetRoiData(RoiName(i)) == Success(loader.data.value.values[i])
  {
    var f := loader.data.value;
    var n := |f.values|;
    var c :| 0 <= c < n && f.columns[c] == RoiName(i) && loader.GetRoiData(RoiName(i)).value == f.values[c];
    if c != i {
      if c < i {
        ColumnNamesDistinct(n, c, i);
      } else {
        ColumnNamesDistinct(n, i, c);
      }
    }
  }

  // ---------------------------------------------------------------------
  // Upload check

  const TxtMessage := "El archivo de registro debe ser .txt"
  const CsvMessage := "El archivo de estímulos debe ser .csv"
  const ValidMessage := "Archivos válidos"

  /** `validate_uploaded_files`, on the names of the uploaded files: the
      fluorescence file is checked before the stimulus file, and a missing
      file passes. */
  function ValidateUploadedFiles(txtName: Option<string>, csvName: Option<string>): (r: (bool, string))
    ensures r.0 <==> (txtName.None? || EndsWith(txtName.value, ".txt")) && (csvName.None? || EndsWith(csvName.value, ".csv"))
    ensures txtName.Some? && !EndsWith(txtName.value, ".txt") ==> r.1 == TxtMessage
    ensures (txtName.None? || EndsWith(txtName.value, ".txt")) && csvName.Some? && !EndsWith(csvName.value, ".csv") ==>
      r.1 == CsvMessage
    ensures r.0 ==> r.1 == ValidMessage
  {
    if txtName.Some? && !EndsWith(txtName.value, ".txt") then (false, TxtMessage)
    else if csvName.Some? && !EndsWith(csvName.value, ".csv") then (false, CsvMessage)
    else (true, ValidMessage)
  }
}
