/**
 * The unit-test-case workbook generator as an abstract grid: a workbook is a
 * list of named sheets, a sheet maps (row, column) positions, both from 1,
 * to a value and a style, and has a width per column letter. The test-case
 * texts are an input (one list of rows per feature); their literal contents
 * are not reproduced.
 */
module TestCaseSheets {
  import opened Js

  datatype Fill = Fill(startColor: string, endColor: string, fillType: string)
  datatype Font = Font(bold: bool, color: string, size: int)
  datatype Alignment = Alignment(horizontal: string, vertical: string, wrapText: bool)
  datatype Border = Border(left: string, right: string, top: string, bottom: string)

  /** A cell's style; `None` is the library default. */
  datatype Style = Style(fill: Option<Fill>, font: Option<Font>, alignment: Alignment, border: Border)

  datatype Cell = Cell(value: string, style: Style)

  datatype Sheet = Sheet(name: string, cells: map<(int, int), Cell>, widths: map<char, int>)

  const HeaderFill := Fill("366092", "366092", "solid")
  const HeaderFont := Font(true, "FFFFFF", 11)
  const ThinBorder := Border("thin", "thin", "thin", "thin")
  const CenterAlignment := Alignment("center", "center", true)
  const LeftAlignment := Alignment("left", "top", true)

  /** The seven column titles every sheet starts with. */
  const Headers: seq<string> := ["No", "テスト項目", "テスト種別", "前提条件", "入力データ", "期待結果", "備考"]

  /** Column widths, A to G. */
  const Widths: map<char, int> := map['A' := 5, 'B' := 25, 'C' := 12, 'D' := 20, 'E' := 40, 'F' := 40, 'G' := 20]

  function HeaderCell(title: string): (c: Cell)
    ensures c.value == title && c.style.fill == Some(HeaderFill) && c.style.font == Some(HeaderFont)
    ensures c.style.alignment == CenterAlignment && c.style.border == ThinBorder
  {
    Cell(title, Style(Some(HeaderFill), Some(HeaderFont), CenterAlignment, ThinBorder))
  }

  /** A data cell: the value as given, a thin border, centred in columns 1 and 3 and left/top elsewhere. */
  function DataCell(value: string, column: int): (c: Cell)
    ensures c.value == value && c.style.border == ThinBorder && c.style.fill.None? && c.style.font.None?
    ensures c.style.alignment == (if column == 1 || column == 3 then CenterAlignment else LeftAlignment)
  {
    Cell(value, Style(None, None, if column in [1, 3] then CenterAlignment else LeftAlignment, ThinBorder))
  }

  /**
   * What a feature sheet holds: the header in row 1, columns 1 to 7; test
   * case k (from 1) in row k + 1, its field j in column j, and nothing
   * else. Rows of any length are written as they are.
   */
  predicate LaysOut(cells: map<(int, int), Cell>, cases: seq<seq<string>>) {
    && (forall c :: 1 <= c <= |Headers| ==> (1, c) in cells && cells[(1, c)] == HeaderCell(Headers[c - 1]))
    && (forall r, c :: 2 <= r < |cases| + 2 && 1 <= c <= |cases[r - 2]| ==>
          (r, c) in cells && cells[(r, c)] == DataCell(cases[r - 2][c - 1], c))
    && (forall p :: p in cells ==> InLayout(p, cases))
  }

  predicate InLayout(p: (int, int), cases: seq<seq<string>>) {
    || (p.0 == 1 && 1 <= p.1 <= |Headers|)
    || (2 <= p.0 < |cases| + 2 && 1 <= p.1 <= |cases[p.0 - 2]|)
  }

  /** The header row, as `ws.append(headers)` followed by the styling loop. */
  method HeaderRow() returns (cells: map<(int, int), Cell>)
    ensures forall c :: 1 <= c <= |Headers| ==> (1, c) in cells && cells[(1, c)] == HeaderCell(Headers[c - 1])
    ensures forall p :: p in cells ==> p.0 == 1 && 1 <= p.1 <= |Headers|
  {
    cells := map[];
    var c := 1;
    while c <= |Headers|
      invariant 1 <= c <= |Headers| + 1
      invariant forall d :: 1 <= d < c ==> (1, d) in cells && cells[(1, d)] == HeaderCell(Headers[d - 1])
      invariant forall p :: p in cells ==> p.0 == 1 && 1 <= p.1 < c
    {
      cells := cells[(1, c) := HeaderCell(Headers[c - 1])];
      c := c + 1;
    }
  }

  /** The inner loop: field j of `row` into column j of row r. */
  method WriteRow(cells: map<(int, int), Cell>, r: int, row: seq<string>) returns (cells': map<(int, int), Cell>)
    ensures RowWritten(cells, cells', r, row)
  {
    cells' := cells;
    var j := 0;
    while j < |row|
      invariant 0 <= j <= |row|
      invariant forall c :: 1 <= c <= j ==> (r, c) in cells' && cells'[(r, c)] == DataCell(row[c - 1], c)
      invariant forall p :: p in cells' <==> p in cells || (p.0 == r && 1 <= p.1 <= j)
      invariant forall p :: p in cells && p.0 != r ==> cells'[p] == cells[p]
    {
      cells' := cells'[(r, j + 1) := DataCell(row[j], j + 1)];
      j := j + 1;
    }
  }

  /** The header row is in place. */
  predicate HeaderWritten(cells: map<(int, int), Cell>) {
    forall c :: 1 <= c <= |Headers| ==> (1, c) in cells && cells[(1, c)] == HeaderCell(Headers[c - 1])
  }

  /** The first k test cases are in place. */
  predicate CasesWritten(cells: map<(int, int), Cell>, cases: seq<seq<string>>, k: int)
    requires 0 <= k <= |cases|
  {
    forall r, c :: 2 <= r < k + 2 && 1 <= c <= |cases[r - 2]| ==>
      (r, c) in cells && cells[(r, c)] == DataCell(cases[r - 2][c - 1], c)
  }

  /** Nothing lies outside the header and the first k test cases. */
  predicate Bounded(cells: map<(int, int), Cell>, cases: seq<seq<string>>, k: int) {
    forall p :: p in cells ==> InLayout(p, cases) && p.0 < k + 2
  }

  /** What the inner loop leaves: row r holds `row`, and every other position is as before. */
  ghost predicate RowWritten(cells: map<(int, int), Cell>, cells': map<(int, int), Cell>, r: int, row: seq<string>) {
    && (forall c :: 1 <= c <= |row| ==> (r, c) in cells' && cells'[(r, c)] == DataCell(row[c - 1], c))
    && (forall p :: p in cells' <==> p in cells || (p.0 == r && 1 <= p.1 <= |row|))
    && (forall p :: p in cells && p.0 != r ==> cells'[p] == cells[p])
  }

  lemma HeaderStep(cells: map<(int, int), Cell>, cells': map<(int, int), Cell>, r: int, row: seq<string>)
    requires r >= 2 && HeaderWritten(cells) && RowWritten(cells, cells', r, row)
    ensures HeaderWritten(cells')
  {
    assert forall c :: 1 <= c <= |Headers| ==> (1, c) in cells;
  }

  lemma CasesStep(cells: map<(int, int), Cell>, cells': map<(int, int), Cell>, cases: seq<seq<string>>, k: int)
    requires 0 <= k < |cases| && CasesWritten(cells, cases, k) && RowWritten(cells, cells', k + 2, cases[k])
    ensures CasesWritten(cells', cases, k + 1)
  {
    assert forall q, c :: 2 <= q < k + 2 && 1 <= c <= |cases[q - 2]| ==> (q, c) in cells;
  }

  lemma BoundedStep(cells: map<(int, int), Cell>, cells': map<(int, int), Cell>, cases: seq<seq<string>>, k: int)
    requires 0 <= k < |cases| && Bounded(cells, cases, k) && RowWritten(cells, cells', k + 2, cases[k])
    ensures Bounded(cells', cases, k + 1)
  {
  }

  /** One `create_*_sheet` builder: header, test cases row by row, then the column widths. */
  method BuildSheet(name: string, cases: seq<seq<string>>) returns (s: Sheet)
    ensures s.name == name && s.widths == Widths
    ensures LaysOut(s.cells, cases)
  {
    var cells := HeaderRow();
    var k := 0;
    while k < |cases|
      invariant 0 <= k <= |cases|
      invariant HeaderWritten(cells) && CasesWritten(cells, cases, k) && Bounded(cells, cases, k)
    {
      var next := WriteRow(cells, k + 2, cases[k]);
      HeaderStep(cells, next, k + 2, cases[k]);
      CasesStep(cells, next, cases, k);
      BoundedStep(cells, next, cases, k);
      cells, k := next, k + 1;
    }
    s := Sheet(name, cells, Widths);
  }

  /** Reading row r back: the values of columns 1 to n. */
  function ReadRow(cells: map<(int, int), Cell>, r: int, n: nat): (values: seq<string>)
    requires forall c :: 1 <= c <= n ==> (r, c) in cells
    ensures |values| == n
  {
    seq(n, i requires 0 <= i < n => cells[(r, i + 1)].value)
  }

  /** Every test case reads back verbatim from its row, and the header row reads back as the titles. */
  lemma RowsReadBack(cells: map<(int, int), Cell>, cases: seq<seq<string>>, k: int)
    requires LaysOut(cells, cases)
    requires 1 <= k <= |cases|
    ensures ReadRow(cells, k + 1, |cases[k - 1]|) == cases[k - 1]
    ensures ReadRow(cells, 1, |Headers|) == Headers
  {
  }

  /** Nothing is written below the last test case or to the right of a row's last field. */
  lemma NothingOutsideTheRows(cells: map<(int, int), Cell>, cases: seq<seq<string>>, r: int, c: int)
    requires LaysOut(cells, cases)
    requires r > |cases| + 1 || r < 1 || c < 1 || (r >= 2 && r < |cases| + 2 && c > |cases[r - 2]|) || (r == 1 && c > |Headers|)
    ensures (r, c) !in cells
  {
    assert (r, c) in cells ==> InLayout((r, c), cases);
  }

  // ---------------------------------------------------------------------
  // The workbook
  // ---------------------------------------------------------------------

  /** The ten features, one sheet each. */
  datatype Feature = UserAuth | Product | Order | StylistApply | Inquiry | CartFavorite | Newsletter | Admin | Stylist | Testimonial

  const Features: seq<Feature> := [UserAuth, Product, Order, StylistApply, Inquiry, CartFavorite, Newsletter, Admin, Stylist, Testimonial]

  const SheetNames: seq<string> := [
    "1. ユーザー登録・ログイン", "2. 商品管理", "3. 注文処理", "4. スタイリスト申請", "5. お問い合わせ",
    "6. カート・お気に入り", "7. メルマガ登録", "8. 管理者機能", "9. スタイリスト機能", "10. お客様の声"]

  const DefaultSheetName := "Sheet"

  /** Sheet `k` is the first one named "Sheet", the one `wb['Sheet']` finds. */
  predicate FirstDefaultAt(sheets: seq<Sheet>, k: int) {
    0 <= k < |sheets| && sheets[k].name == DefaultSheetName
    && forall j :: 0 <= j < k ==> sheets[j].name != DefaultSheetName
  }

  lemma FirstDefaultAtShift(sheets: seq<Sheet>, rest: seq<Sheet>)
    requires |sheets| > 0 && sheets[0].name != DefaultSheetName
    requires exists k :: FirstDefaultAt(sheets[1..], k) && rest == sheets[1..][..k] + sheets[1..][k + 1..]
    ensures exists k :: FirstDefaultAt(sheets, k) && [sheets[0]] + rest == sheets[..k] + sheets[k + 1..]
  {
    var k :| FirstDefaultAt(sheets[1..], k) && rest == sheets[1..][..k] + sheets[1..][k + 1..];
    assert forall j :: 1 <= j < |sheets| ==> sheets[j] == sheets[1..][j - 1];
    assert FirstDefaultAt(sheets, k + 1);
    assert [sheets[0]] + sheets[1..][..k] == sheets[..k + 1];
    assert sheets[1..][k + 1..] == sheets[k + 2..];
  }

  /**
   * `if 'Sheet' in wb.sheetnames: wb.remove(wb['Sheet'])`: the first sheet
   * named "Sheet" is removed and the others keep their order; without one,
   * nothing changes.
   */
  function RemoveDefault(sheets: seq<Sheet>): (r: seq<Sheet>)
    ensures (forall i :: 0 <= i < |sheets| ==> sheets[i].name != DefaultSheetName) ==> r == sheets
    ensures (exists i :: 0 <= i < |sheets| && sheets[i].name == DefaultSheetName) ==> |r| == |sheets| - 1
    ensures (exists i :: 0 <= i < |sheets| && sheets[i].name == DefaultSheetName) ==>
              exists k :: FirstDefaultAt(sheets, k) && r == sheets[..k] + sheets[k + 1..]
  {
    if |sheets| == 0 then []
    else if sheets[0].name == DefaultSheetName then
      assert FirstDefaultAt(sheets, 0);
      sheets[1..]
    else
      var rest := RemoveDefault(sheets[1..]);
      assert forall i :: 1 <= i < |sheets| ==> sheets[i] == sheets[1..][i - 1];
      if exists i :: 0 <= i < |sheets| && sheets[i].name == DefaultSheetName then
        FirstDefaultAtShift(sheets, rest);
        [sheets[0]] + rest
      else
        [sheets[0]] + rest
  }

  /** Sheet i is feature i's: its name, the fixed widths and the feature's test cases laid out. */
  predicate FeatureSheet(s: Sheet, i: int, casesFor: Feature -> seq<seq<string>>)
    requires 0 <= i < |Features|
  {
    s.name == SheetNames[i] && s.widths == Widths && LaysOut(s.cells, casesFor(Features[i]))
  }

  /**
   * `create_test_cases_excel` without the save: a new workbook's default
   * sheet is removed, then the ten feature sheets are created in order.
   */
  method CreateWorkbook(initial: seq<Sheet>, casesFor: Feature -> seq<seq<string>>) returns (sheets: seq<Sheet>)
    requires initial == [Sheet(DefaultSheetName, map[], map[])]
    ensures |sheets| == |Features|
    ensures forall i :: 0 <= i < |sheets| ==> FeatureSheet(sheets[i], i, casesFor)
  {
    sheets := RemoveDefault(initial);
    assert sheets == [];
    var i := 0;
    while i < |Features|
      invariant 0 <= i <= |Features|
      invariant |sheets| == i
      invariant forall j :: 0 <= j < i ==> FeatureSheet(sheets[j], j, casesFor)
    {
      var s := BuildSheet(SheetNames[i], casesFor(Features[i]));
      sheets := sheets + [s];
      i := i + 1;
    }
  }

  /** The sheet names are distinct and none is the default name, so every feature sheet can be found by name. */
  lemma SheetNamesDistinct()
    ensures forall i, j :: 0 <= i < j < |SheetNames| ==> SheetNames[i] != SheetNames[j]
    ensures DefaultSheetName !in SheetNames
  {
  }
}
