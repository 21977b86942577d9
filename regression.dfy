/** The least-squares line fit of regression.cpp: the CSV line filter of
    readCSV, the day numbering of assignXIndices, the closed-form fit of
    linearRegression, predict, and the next-day forecast made by main.
    Doubles are modelled as exact reals; std::stod is the parameter `parse`. */
module Regression {
  import opened Wrappers
  import opened Stats

  /** One observation: x is the day number, y the price. */
  datatype DataPoint = DataPoint(x: real, y: real)

  /** The fitted line y = slope · x + intercept (the source's std::pair). */
  datatype Coefficients = Coefficients(slope: real, intercept: real)

  /** The two ways the program stops with status 1: main returns it when
      no data was read, linearRegression calls exit(1) on a zero denominator. */
  datatype Error =
    | NoValidData      // no line after the header yielded a price
    | ZeroDenominator  // n·Σx² − (Σx)² is zero, so the fit is undefined

  // ---------------------------------------------------------------------
  // readCSV: which lines of the file become data points
  // ---------------------------------------------------------------------

  /** Index of the first comma in s, or |s| when there is none. */
  function CommaIndex(s: string): (k: nat)
    ensures k <= |s|
    ensures k < |s| ==> s[k] == ','
    ensures forall j :: 0 <= j < k ==> s[j] != ','
  {
    if |s| == 0 || s[0] == ',' then 0 else 1 + CommaIndex(s[1..])
  }

  /** What `priceStr` holds after `std::getline(ss, date, ',')` and
      `std::getline(ss, priceStr, ',')` both succeed on a line, or None when
      one of them fails. The first fails only on an empty line; the second
      fails when the first consumed the whole line or when nothing follows
      the first comma. The field is the text between the first comma and
      the next comma (or the end of the line) and may be empty. */
  function PriceField(line: string): (f: Option<string>)
    ensures f.Some? <==> exists d :: 0 <= d < |line| - 1 && line[d] == ','
    ensures f.Some? ==> ',' !in f.value
  {
    var d := CommaIndex(line);
    if d + 1 < |line| then
      var rest := line[d + 1..];
      Some(rest[..CommaIndex(rest)])
    else
      None
  }

  /** A row `date,price` or `date,price,more...` yields exactly its price text. */
  lemma PriceFieldOfRow(date: string, price: string, tail: string)
    requires ',' !in date && ',' !in price
    requires tail == [] || tail[0] == ','
    requires price != [] || tail != []
    ensures PriceField(date + [','] + price + tail) == Some(price)
  {
    var line := date + [','] + price + tail;
    assert line[|date|] == ',';
    assert forall j :: 0 <= j < |date| ==> line[j] == date[j];
    var d := CommaIndex(line);
    assert d == |date|;
    var rest := line[d + 1..];
    assert rest == price + tail;
    assert forall j :: 0 <= j < |price| ==> rest[j] == price[j];
    var k := CommaIndex(rest);
    if tail != [] {
      assert rest[|price|] == tail[0];
    }
    assert k == |price|;
  }

  /** The price a line contributes, if any: `std::stod` (the parameter
      `parse`, None when it throws) applied to the line's price field. */
  function LineValue(line: string, parse: string -> Option<real>): Option<real>
  {
    match PriceField(line)
    case Some(field) => parse(field)
    case None => None
  }

  /** The points pushed for the lines after the header, in file order. The
      source leaves x unset until assignXIndices; the model puts 0.0 there. */
  function KeptPoints(body: seq<string>, parse: string -> Option<real>): (r: seq<DataPoint>)
    ensures |r| <= |body|
  {
    if |body| == 0 then []
    else
      var init := KeptPoints(body[..|body| - 1], parse);
      match LineValue(body[|body| - 1], parse)
      case Some(v) => init + [DataPoint(0.0, v)]
      case None => init
  }

  /** What readCSV returns for a file with these lines: the first line is
      the header and is never looked at. */
  function ReadRows(lines: seq<string>, parse: string -> Option<real>): seq<DataPoint>
  {
    if |lines| == 0 then [] else KeptPoints(lines[1..], parse)
  }

  /** Indices, in increasing order, of the lines that yield a price. */
  function KeptIndices(body: seq<string>, parse: string -> Option<real>): (idx: seq<nat>)
    ensures forall k :: 0 <= k < |idx| ==> idx[k] < |body| && LineValue(body[idx[k]], parse).Some?
    ensures forall k, l :: 0 <= k < l < |idx| ==> idx[k] < idx[l]
    ensures forall j :: 0 <= j < |body| && LineValue(body[j], parse).Some? ==> j in idx
  {
    if |body| == 0 then []
    else
      var init := KeptIndices(body[..|body| - 1], parse);
      if LineValue(body[|body| - 1], parse).Some? then init + [|body| - 1] else init
  }

  /** readCSV keeps, in file order, exactly the lines whose price field
      parses: point k carries the value of line KeptIndices[k]. */
  lemma {:induction false} KeptPointsAreParsedLines(body: seq<string>, parse: string -> Option<real>)
    ensures |KeptPoints(body, parse)| == |KeptIndices(body, parse)|
    ensures forall k :: 0 <= k < |KeptPoints(body, parse)| ==>
      KeptPoints(body, parse)[k] == DataPoint(0.0, LineValue(body[KeptIndices(body, parse)[k]], parse).value)
  {
    if |body| > 0 {
      var n := |body| - 1;
      var init := body[..n];
      KeptPointsAreParsedLines(init, parse);
      var points, idx := KeptPoints(init, parse), KeptIndices(init, parse);
      forall k | 0 <= k < |idx|
        ensures body[idx[k]] == init[idx[k]]
      {
      }
      if LineValue(body[n], parse).Some? {
        assert KeptPoints(body, parse) == points + [DataPoint(0.0, LineValue(body[n], parse).value)];
        assert KeptIndices(body, parse) == idx + [n];
      } else {
        assert KeptPoints(body, parse) == points;
        assert KeptIndices(body, parse) == idx;
      }
    }
  }

  /** Filtering distributes over concatenation, so file order is kept. */
  lemma {:induction false} KeptPointsAppend(a: seq<string>, b: seq<string>, parse: string -> Option<real>)
    ensures KeptPoints(a + b, parse) == KeptPoints(a, parse) + KeptPoints(b, parse)
  {
    if |b| == 0 {
      assert a + b == a;
    } else {
      var b' := b[..|b| - 1];
      assert (a + b)[..|a + b| - 1] == a + b';
      assert (a + b)[|a + b| - 1] == b[|b| - 1];
      KeptPointsAppend(a, b', parse);
    }
  }

  /** readCSV's loop, over the file's lines (opening and reading the file are
      not modelled). */
  method ReadCSV(lines: seq<string>, parse: string -> Option<real>) returns (data: seq<DataPoint>)
    ensures data == ReadRows(lines, parse)
  {
    data := [];
    if |lines| == 0 {
      return;
    }
    var i := 1;
    while i < |lines|
      invariant 1 <= i <= |lines|
      invariant data == KeptPoints(lines[1..i], parse)
    {
      assert lines[1..i + 1][..i - 1] == lines[1..i];
      match PriceField(lines[i]) {
        case Some(priceStr) =>
          match parse(priceStr) {
            case Some(price) =>
              data := data + [DataPoint(0.0, price)];
            case None =>
          }
        case None =>
      }
      i := i + 1;
    }
    assert lines[1..i] == lines[1..];
  }

  // ---------------------------------------------------------------------
  // assignXIndices: day numbers 1..n
  // ---------------------------------------------------------------------

  /** The points with x replaced by their 1-based position. */
  function Numbered(s: seq<DataPoint>): (r: seq<DataPoint>)
    ensures |r| == |s|
  {
    seq(|s|, i requires 0 <= i < |s| => DataPoint((i + 1) as real, s[i].y))
  }

  /** assignXIndices, in place: point i gets x = i + 1 and keeps its price. */
  method AssignXIndices(a: array<DataPoint>)
    modifies a
    ensures a[..] == Numbered(old(a[..]))
    ensures forall i :: 0 <= i < a.Length ==> a[i].x == (i + 1) as real && a[i].y == old(a[i].y)
  {
    for i := 0 to a.Length
      invariant forall k :: 0 <= k < i ==> a[k] == DataPoint((k + 1) as real, old(a[k]).y)
      invariant forall k :: i <= k < a.Length ==> a[k] == old(a[k])
    {
      a[i] := a[i].(x := (i + 1) as real);
    }
  }

  // ---------------------------------------------------------------------
  // linearRegression: the closed-form least-squares fit
  // ---------------------------------------------------------------------

  /** The columns whose sums linearRegression accumulates. */
  function Xs(data: seq<DataPoint>): (r: seq<real>)
    ensures |r| == |data|
  {
    seq(|data|, i requires 0 <= i < |data| => data[i].x)
  }

  function Ys(data: seq<DataPoint>): (r: seq<real>)
    ensures |r| == |data|
  {
    seq(|data|, i requires 0 <= i < |data| => data[i].y)
  }

  function XYs(data: seq<DataPoint>): (r: seq<real>)
    ensures |r| == |data|
  {
    seq(|data|, i requires 0 <= i < |data| => data[i].x * data[i].y)
  }

  function XXs(data: seq<DataPoint>): (r: seq<real>)
    ensures |r| == |data|
  {
    seq(|data|, i requires 0 <= i < |data| => data[i].x * data[i].x)
  }

  /** linearRegression's n: the number of points, as a double. */
  function Count(data: seq<DataPoint>): (n: real)
    ensures n >= 0.0
  {
    |data| as real
  }

  /** The four sums linearRegression accumulates: Σx, Σy, Σxy and Σx². */
  function SumX(data: seq<DataPoint>): real { Sum(Xs(data)) }
  function SumY(data: seq<DataPoint>): real { Sum(Ys(data)) }
  function SumXY(data: seq<DataPoint>): real { Sum(XYs(data)) }
  function SumXX(data: seq<DataPoint>): real { Sum(XXs(data)) }

  /** n·Σx² − (Σx)², the denominator shared by slope and intercept. */
  function Denominator(data: seq<DataPoint>): real
  {
    Count(data) * SumXX(data) - SumX(data) * SumX(data)
  }

  /** With no points every sum is zero, and so is the denominator. */
  lemma EmptyDenominator(data: seq<DataPoint>)
    requires |data| == 0
    ensures Count(data) == 0.0
    ensures SumX(data) == 0.0 && SumY(data) == 0.0 && SumXY(data) == 0.0 && SumXX(data) == 0.0
    ensures Denominator(data) == 0.0
  {
    assert Xs(data) == [] && Ys(data) == [] && XYs(data) == [] && XXs(data) == [];
  }

  /** The closed form of linearRegression from the count n and the sums
      Σx, Σy, Σxy and Σx²: the slope (n·Σxy − Σx·Σy) / (n·Σx² − (Σx)²) and
      the intercept (Σy − slope·Σx) / n, or the error it throws when the
      denominator is zero. */
  function FitFromSums(n: real, sumX: real, sumY: real, sumXY: real, sumXX: real): Result<Coefficients, Error>
    requires n == 0.0 ==> sumX == 0.0 && sumXX == 0.0
  {
    var denominator := n * sumXX - sumX * sumX;
    if denominator == 0.0 then Err(ZeroDenominator)
    else
      var slope := (n * sumXY - sumX * sumY) / denominator;
      Ok(Coefficients(slope, (sumY - slope * sumX) / n))
  }

  /** The four column sums grow by one term per point. */
  lemma ColumnsSnoc(data: seq<DataPoint>, i: nat)
    requires i < |data|
    ensures SumX(data[..i + 1]) == SumX(data[..i]) + data[i].x
    ensures SumY(data[..i + 1]) == SumY(data[..i]) + data[i].y
    ensures SumXY(data[..i + 1]) == SumXY(data[..i]) + data[i].x * data[i].y
    ensures SumXX(data[..i + 1]) == SumXX(data[..i]) + data[i].x * data[i].x
  {
    var p, q := data[..i], data[..i + 1];
    assert forall k :: 0 <= k < i ==> q[k] == p[k];
    SumExtend(Xs(q), Xs(p), data[i].x);
    SumExtend(Ys(q), Ys(p), data[i].y);
    SumExtend(XYs(q), XYs(p), data[i].x * data[i].y);
    SumExtend(XXs(q), XXs(p), data[i].x * data[i].x);
  }

  /** What linearRegression returns for these points. */
  function Fit(data: seq<DataPoint>): Result<Coefficients, Error>
  {
    FitFromSums(Count(data), SumX(data), SumY(data), SumXY(data), SumXX(data))
  }

  /** linearRegression: one pass accumulating the four sums, then the
      closed form. */
  method LinearRegression(data: seq<DataPoint>) returns (r: Result<Coefficients, Error>)
    ensures r == Fit(data)
  {
    var n := Count(data);
    var sumX, sumY, sumXY, sumXX := 0.0, 0.0, 0.0, 0.0;
    for i := 0 to |data|
      invariant sumX == SumX(data[..i]) && sumY == SumY(data[..i])
      invariant sumXY == SumXY(data[..i]) && sumXX == SumXX(data[..i])
    {
      var point := data[i];
      ColumnsSnoc(data, i);
      sumX := sumX + point.x;
      sumY := sumY + point.y;
      sumXY := sumXY + point.x * point.y;
      sumXX := sumXX + point.x * point.x;
    }
    assert data[..|data|] == data;
    r := FitFromSums(n, sumX, sumY, sumXY, sumXX);
  }

  // ---------------------------------------------------------------------
  // What the fit means
  // ---------------------------------------------------------------------

  /** The denominator is n times the sum of squared deviations of x from its
      mean, so it is never negative and is zero exactly when every x is the
      same (in particular for no points or one point). */
  lemma DenominatorSign(data: seq<DataPoint>)
    ensures Denominator(data) >= 0.0
    ensures Denominator(data) == 0.0 <==> AllEqual(Xs(data))
  {
    ProductColumns(data);
    Spread(XXs(data), Xs(data));
    DenominatorOfColumns(data);
  }

  /** The denominator written over the x and x² columns. */
  lemma DenominatorOfColumns(data: seq<DataPoint>)
    ensures Denominator(data) == |Xs(data)| as real * Sum(XXs(data)) - Sum(Xs(data)) * Sum(Xs(data))
  {
  }

  /** linearRegression throws exactly when all x values coincide. */
  lemma FitFailsIffAllXEqual(data: seq<DataPoint>)
    ensures Fit(data).Err? <==> AllEqual(Xs(data))
  {
    DenominatorSign(data);
  }

  /** x·(a·x + b) = a·x² + b·x. */
  lemma ProductOfLine(x: real, y: real, a: real, b: real, xy: real, xx: real)
    requires y == a * x + b && xy == x * y && xx == x * x
    ensures xy == a * xx + b * x
  {
  }

  /** The slope and intercept formulas give back a and b when the sums come
      from points on the line y = a·x + b. */
  lemma LineFormulas(n: real, sumX: real, sumY: real, sumXY: real, sumXX: real, a: real, b: real)
    requires n > 0.0 && n * sumXX - sumX * sumX != 0.0
    requires sumY == a * sumX + b * n && sumXY == a * sumXX + b * sumX
    ensures (n * sumXY - sumX * sumY) / (n * sumXX - sumX * sumX) == a
    ensures (sumY - (n * sumXY - sumX * sumY) / (n * sumXX - sumX * sumX) * sumX) / n == b
  {
    var denominator := n * sumXX - sumX * sumX;
    assert n * sumXY - sumX * sumY == a * denominator;
    CancelFactor(a, denominator, n * sumXY - sumX * sumY);
    CancelFactor(b, n, sumY - a * sumX);
  }

  /** Hence the closed form returns (a, b) for such sums. */
  lemma LineFromSums(n: real, sumX: real, sumY: real, sumXY: real, sumXX: real, a: real, b: real)
    requires n > 0.0 && n * sumXX - sumX * sumX != 0.0
    requires sumY == a * sumX + b * n && sumXY == a * sumXX + b * sumX
    ensures FitFromSums(n, sumX, sumY, sumXY, sumXX) == Ok(Coefficients(a, b))
  {
    LineFormulas(n, sumX, sumY, sumXY, sumXX, a, b);
  }

  /** Term by term, x·y = a·x² + b·x for points on the line y = a·x + b. */
  lemma LineProducts(xs: seq<real>, ys: seq<real>, xys: seq<real>, xxs: seq<real>, a: real, b: real)
    requires IsAffine(ys, xs, a, b) && IsProducts(xys, xs, ys) && IsSquares(xxs, xs)
    ensures forall i :: 0 <= i < |xs| ==> xys[i] == a * xxs[i] + b * xs[i]
  {
    forall i | 0 <= i < |xs|
      ensures xys[i] == a * xxs[i] + b * xs[i]
    {
      ProductOfLine(xs[i], ys[i], a, b, xys[i], xxs[i]);
    }
  }

  /** Column sums of points on the line y = a·x + b. */
  lemma LineSums(xs: seq<real>, ys: seq<real>, xys: seq<real>, xxs: seq<real>, a: real, b: real, n: real)
    requires n == |xs| as real
    requires IsAffine(ys, xs, a, b) && IsProducts(xys, xs, ys) && IsSquares(xxs, xs)
    ensures Sum(ys) == a * Sum(xs) + b * n
    ensures Sum(xys) == a * Sum(xxs) + b * Sum(xs)
  {
    SumAffine(ys, xs, a, b, n);
    LineProducts(xs, ys, xys, xxs, a, b);
    SumLinear(xys, xxs, xs, a, b);
  }

  /** Points lying exactly on a line with at least two distinct x values are
      fitted by that line. */
  lemma FitRecoversLine(data: seq<DataPoint>, a: real, b: real)
    requires !AllEqual(Xs(data))
    requires forall i :: 0 <= i < |data| ==> data[i].y == a * data[i].x + b
    ensures Fit(data) == Ok(Coefficients(a, b))
  {
    LineAffine(data, a, b);
    FitRecoversAffine(data, a, b);
  }

  /** The same, with the line stated on the columns. FitRecoversLine is the
      statement about points; this column form is the one the day-numbered
      trend reaches (TrendFit), where the x column is built rather than
      read from the points. */
  lemma FitRecoversAffine(data: seq<DataPoint>, a: real, b: real)
    requires !AllEqual(Xs(data))
    requires IsAffine(Ys(data), Xs(data), a, b)
    ensures Fit(data) == Ok(Coefficients(a, b))
  {
    DenominatorNonZero(data);
    LineColumnSums(data, a, b);
    FitOfLineSums(data, a, b);
  }

  /** The closed form applied to column sums that come from the line. */
  lemma FitOfLineSums(data: seq<DataPoint>, a: real, b: real)
    requires Count(data) > 0.0
    requires Count(data) * SumXX(data) - SumX(data) * SumX(data) != 0.0
    requires SumY(data) == a * SumX(data) + b * Count(data)
    requires SumXY(data) == a * SumXX(data) + b * SumX(data)
    ensures Fit(data) == Ok(Coefficients(a, b))
  {
    LineFromSums(Count(data), SumX(data), SumY(data), SumXY(data), SumXX(data), a, b);
  }

  /** With two distinct x values there are points and the denominator is
      not zero. */
  lemma DenominatorNonZero(data: seq<DataPoint>)
    requires !AllEqual(Xs(data))
    ensures Count(data) > 0.0
    ensures Count(data) * SumXX(data) - SumX(data) * SumX(data) != 0.0
  {
    DenominatorSign(data);
  }

  /** On the line y = a·x + b the y column is affine in the x column. */
  lemma LineAffine(data: seq<DataPoint>, a: real, b: real)
    requires forall i :: 0 <= i < |data| ==> data[i].y == a * data[i].x + b
    ensures IsAffine(Ys(data), Xs(data), a, b)
  {
    forall i | 0 <= i < |data|
      ensures Ys(data)[i] == a * Xs(data)[i] + b
    {
      var x := data[i].x;
      assert Xs(data)[i] == x && Ys(data)[i] == data[i].y;
    }
  }

  /** The product columns as relations between columns. */
  lemma ProductRelations(data: seq<DataPoint>)
    ensures IsProducts(XYs(data), Xs(data), Ys(data)) && IsSquares(XXs(data), Xs(data))
  {
    ProductColumns(data);
  }

  /** Column sums of points on the line y = a·x + b. */
  lemma LineColumnSums(data: seq<DataPoint>, a: real, b: real)
    requires IsAffine(Ys(data), Xs(data), a, b)
    ensures SumY(data) == a * SumX(data) + b * Count(data)
    ensures SumXY(data) == a * SumXX(data) + b * SumX(data)
  {
    ProductRelations(data);
    LineSums(Xs(data), Ys(data), XYs(data), XXs(data), a, b, Count(data));
  }

  /** The value predict computes: slope · x + intercept. */
  function Predict(c: Coefficients, x: real): real
  {
    c.slope * x + c.intercept
  }

  /** The intercept formula puts (Σx/n, Σy/n) on the line. */
  lemma MeanPointFromSums(n: real, sumX: real, sumY: real, sumXY: real, sumXX: real, c: Coefficients,
                          meanX: real, meanY: real)
    requires IsClosedForm(n, sumX, sumY, sumXY, sumXX, c)
    requires meanX == sumX / n && meanY == sumY / n
    ensures Predict(c, meanX) == meanY
  {
    assert c.slope * (sumX / n) == (c.slope * sumX) / n;
  }

  /** The fitted line passes through the point of means. */
  lemma FitPassesThroughMeans(data: seq<DataPoint>, c: Coefficients)
    requires Fit(data) == Ok(c)
    ensures |data| > 0
    ensures Predict(c, Mean(Xs(data))) == Mean(Ys(data))
  {
    FitIsClosedForm(data, c);
    InterceptThroughMeans(data, c);
  }

  /** The intercept formula alone puts the point of means on the line. */
  lemma InterceptThroughMeans(data: seq<DataPoint>, c: Coefficients)
    requires IsClosedForm(Count(data), SumX(data), SumY(data), SumXY(data), SumXX(data), c)
    ensures |data| > 0
    ensures Predict(c, Mean(Xs(data))) == Mean(Ys(data))
  {
    ColumnMeans(data);
    MeanPointFromSums(Count(data), SumX(data), SumY(data), SumXY(data), SumXX(data), c, Mean(Xs(data)), Mean(Ys(data)));
  }

  /** The means of the x and y columns are Σx/n and Σy/n. */
  lemma ColumnMeans(data: seq<DataPoint>)
    requires |data| > 0
    ensures Mean(Xs(data)) == SumX(data) / Count(data)
    ensures Mean(Ys(data)) == SumY(data) / Count(data)
  {
  }

  // ---------------------------------------------------------------------
  // The fit over day numbers 1..n
  // ---------------------------------------------------------------------

  /** Numbering keeps every price and its order, and gives day i + 1 to
      point i. */
  lemma NumberedColumns(s: seq<DataPoint>)
    ensures Ys(Numbered(s)) == Ys(s)
    ensures forall i :: 0 <= i < |s| ==> Xs(Numbered(s))[i] == (i + 1) as real
  {
  }

  /** The day numbers coincide exactly when there are fewer than two points. */
  lemma NumberedXsEqualIff(s: seq<DataPoint>)
    ensures AllEqual(Xs(Numbered(s))) <==> |s| < 2
  {
    if |s| >= 2 {
      assert Xs(Numbered(s))[0] != Xs(Numbered(s))[1];
    }
  }

  /** 1 + 2 + … + n = n(n + 1)/2. */
  lemma {:induction false} SumOfDays(xs: seq<real>)
    requires forall i :: 0 <= i < |xs| ==> xs[i] == (i + 1) as real
    ensures Sum(xs) == (|xs| as real) * (|xs| as real + 1.0) / 2.0
  {
    if |xs| > 0 {
      var k := |xs| - 1;
      SumOfDays(xs[..k]);
      DaysStep(k as real, Sum(xs[..k]), Sum(xs));
    }
  }

  lemma DaysStep(k: real, s0: real, s1: real)
    requires s0 == k * (k + 1.0) / 2.0 && s1 == s0 + (k + 1.0)
    ensures s1 == (k + 1.0) * (k + 1.0 + 1.0) / 2.0
  {
  }

  /** 1² + 2² + … + n² = n(n + 1)(2n + 1)/6. */
  lemma {:induction false} SumOfSquaredDays(xxs: seq<real>)
    requires forall i :: 0 <= i < |xxs| ==> xxs[i] == (i + 1) as real * (i + 1) as real
    ensures Sum(xxs) == (|xxs| as real) * (|xxs| as real + 1.0) * (2.0 * |xxs| as real + 1.0) / 6.0
  {
    if |xxs| > 0 {
      var k := |xxs| - 1;
      SumOfSquaredDays(xxs[..k]);
      SquaredDaysStep(k as real, Sum(xxs[..k]), xxs[k], Sum(xxs));
    }
  }

  lemma SquaredDaysStep(k: real, s0: real, t: real, s1: real)
    requires s0 == k * (k + 1.0) * (2.0 * k + 1.0) / 6.0
    requires t == (k + 1.0) * (k + 1.0) && s1 == s0 + t
    ensures s1 == (k + 1.0) * (k + 1.0 + 1.0) * (2.0 * (k + 1.0) + 1.0) / 6.0
  {
  }

  /** n·Σi² − (Σi)² over i = 1..n equals n²(n² − 1)/12. */
  lemma DaysClosedForm(n: real, sumX: real, sumXX: real)
    requires sumX == n * (n + 1.0) / 2.0
    requires sumXX == n * (n + 1.0) * (2.0 * n + 1.0) / 6.0
    ensures n * sumXX - sumX * sumX == n * n * (n * n - 1.0) / 12.0
  {
  }

  /** Over day numbers Σx is 1 + … + n. */
  lemma DaySumX(s: seq<DataPoint>)
    ensures SumX(Numbered(s)) == Count(s) * (Count(s) + 1.0) / 2.0
  {
    NumberedColumns(s);
    SumOfDays(Xs(Numbered(s)));
  }

  /** Over day numbers Σx² is 1² + … + n². */
  lemma DaySumXX(s: seq<DataPoint>)
    ensures SumXX(Numbered(s)) == Count(s) * (Count(s) + 1.0) * (2.0 * Count(s) + 1.0) / 6.0
  {
    var d := Numbered(s);
    NumberedColumns(s);
    ProductColumns(d);
    SumOfSquaredDays(XXs(d));
  }

  /** Over day numbers the denominator is n²(n² − 1)/12: zero for n ≤ 1 and
      positive from two points on. */
  lemma NumberedDenominator(s: seq<DataPoint>)
    ensures Denominator(Numbered(s)) == Count(s) * Count(s) * (Count(s) * Count(s) - 1.0) / 12.0
  {
    var d := Numbered(s);
    assert Count(d) == Count(s);
    DaySumX(s);
    DaySumXX(s);
    DaysClosedForm(Count(s), SumX(d), SumXX(d));
  }

  // ---------------------------------------------------------------------
  // Least squares: the fitted line minimises the sum of squared residuals
  // ---------------------------------------------------------------------

  /** The residuals y − predict(c, x) of the points against a line. */
  function Residuals(data: seq<DataPoint>, c: Coefficients): (r: seq<real>)
    ensures |r| == |data|
  {
    seq(|data|, i requires 0 <= i < |data| => Ys(data)[i] - Predict(c, Xs(data)[i]))
  }

  /** The residuals weighted by x. */
  function WeightedResiduals(data: seq<DataPoint>, c: Coefficients): (r: seq<real>)
    ensures |r| == |data|
  {
    seq(|data|, i requires 0 <= i < |data| => Xs(data)[i] * Residuals(data, c)[i])
  }

  /** The sum of squared residuals of a line. */
  function SquaredError(data: seq<DataPoint>, c: Coefficients): real
  {
    Sum(Squares(Residuals(data, c)))
  }

  /** The closed form satisfies the two normal equations
      Σy − m·Σx − b·n = 0 and Σxy − m·Σx² − b·Σx = 0. */
  lemma NormalFromSums(n: real, sumX: real, sumY: real, sumXY: real, sumXX: real, c: Coefficients)
    requires IsClosedForm(n, sumX, sumY, sumXY, sumXX, c)
    ensures sumY - c.slope * sumX - c.intercept * n == 0.0
    ensures sumXY - c.slope * sumXX - c.intercept * sumX == 0.0
  {
    var m, b := c.slope, c.intercept;
    var denominator := n * sumXX - sumX * sumX;
    assert m * denominator == n * sumXY - sumX * sumY;
    assert b * n == sumY - m * sumX;
    assert n * (sumXY - m * sumXX - b * sumX) == 0.0;
  }

  /** x·(y − (m·x + b)) = x·y − m·x² − b·x, term by term. */
  lemma WeightedTerms(xs: seq<real>, ys: seq<real>, xys: seq<real>, xxs: seq<real>,
                      rs: seq<real>, xrs: seq<real>, m: real, b: real)
    requires |ys| == |xs| && |xys| == |xs| && |xxs| == |xs| && |rs| == |xs| && |xrs| == |xs|
    requires forall i :: 0 <= i < |xs| ==> rs[i] == ys[i] - (m * xs[i] + b)
    requires forall i :: 0 <= i < |xs| ==> xrs[i] == xs[i] * rs[i]
    requires forall i :: 0 <= i < |xs| ==> xys[i] == xs[i] * ys[i] && xxs[i] == xs[i] * xs[i]
    ensures forall i :: 0 <= i < |xs| ==> xrs[i] == xys[i] - m * xxs[i] - b * xs[i]
  {
  }

  /** The product columns in terms of the x and y columns. */
  lemma ProductColumns(data: seq<DataPoint>)
    ensures forall i :: 0 <= i < |data| ==> XYs(data)[i] == Xs(data)[i] * Ys(data)[i]
    ensures forall i :: 0 <= i < |data| ==> XXs(data)[i] == Xs(data)[i] * Xs(data)[i]
  {
  }

  /** The residual columns term by term. */
  lemma ResidualColumns(data: seq<DataPoint>, c: Coefficients)
    ensures forall i :: 0 <= i < |data| ==>
      Residuals(data, c)[i] == Ys(data)[i] - (c.slope * Xs(data)[i] + c.intercept)
    ensures forall i :: 0 <= i < |data| ==>
      WeightedResiduals(data, c)[i] == Xs(data)[i] * Residuals(data, c)[i]
    ensures IsProducts(WeightedResiduals(data, c), Xs(data), Residuals(data, c))
  {
  }

  /** A fit that succeeded has points, a non-zero denominator, and the
      closed-form slope and intercept. */
  lemma FitIsClosedForm(data: seq<DataPoint>, c: Coefficients)
    requires Fit(data) == Ok(c)
    ensures IsClosedForm(Count(data), SumX(data), SumY(data), SumXY(data), SumXX(data), c)
  {
    if |data| == 0 {
      EmptyDenominator(data);
    }
    ClosedForm(Count(data), SumX(data), SumY(data), SumXY(data), SumXX(data), c);
  }

  /** c is the closed-form solution for these sums: n and the denominator
      are not zero, and slope and intercept are the two quotients. */
  predicate IsClosedForm(n: real, sumX: real, sumY: real, sumXY: real, sumXX: real, c: Coefficients)
  {
    n != 0.0 && n * sumXX - sumX * sumX != 0.0 &&
    c.slope == (n * sumXY - sumX * sumY) / (n * sumXX - sumX * sumX) &&
    c.intercept == (sumY - c.slope * sumX) / n
  }

  /** What the closed form returns when it succeeds. */
  lemma ClosedForm(n: real, sumX: real, sumY: real, sumXY: real, sumXX: real, c: Coefficients)
    requires n == 0.0 ==> sumX == 0.0 && sumXX == 0.0
    requires FitFromSums(n, sumX, sumY, sumXY, sumXX) == Ok(c)
    ensures IsClosedForm(n, sumX, sumY, sumXY, sumXX, c)
  {
  }

  /** The fitted coefficients satisfy the normal equations. */
  lemma FitSolvesNormalEquations(data: seq<DataPoint>, c: Coefficients)
    requires Fit(data) == Ok(c)
    ensures SumY(data) - c.slope * SumX(data) - c.intercept * Count(data) == 0.0
    ensures SumXY(data) - c.slope * SumXX(data) - c.intercept * SumX(data) == 0.0
  {
    FitIsClosedForm(data, c);
    NormalFromSums(Count(data), SumX(data), SumY(data), SumXY(data), SumXX(data), c);
  }

  /** Residuals sum to Σy − m·Σx − b·n. */
  lemma ResidualSum(data: seq<DataPoint>, c: Coefficients)
    ensures Sum(Residuals(data, c)) == SumY(data) - c.slope * SumX(data) - c.intercept * Count(data)
  {
    ResidualColumns(data, c);
    SumResidual(Residuals(data, c), Ys(data), Xs(data), c.slope, c.intercept, Count(data));
  }

  /** Each weighted residual is x·y − m·x² − b·x. */
  lemma WeightedResidualTerms(data: seq<DataPoint>, c: Coefficients)
    ensures forall i :: 0 <= i < |data| ==>
      WeightedResiduals(data, c)[i] == XYs(data)[i] - c.slope * XXs(data)[i] - c.intercept * Xs(data)[i]
  {
    ProductColumns(data);
    ResidualColumns(data, c);
    WeightedTerms(Xs(data), Ys(data), XYs(data), XXs(data), Residuals(data, c), WeightedResiduals(data, c), c.slope, c.intercept);
  }

  /** Weighted residuals sum to Σxy − m·Σx² − b·Σx. */
  lemma WeightedResidualSum(data: seq<DataPoint>, c: Coefficients)
    ensures Sum(WeightedResiduals(data, c)) == SumXY(data) - c.slope * SumXX(data) - c.intercept * SumX(data)
  {
    WeightedResidualTerms(data, c);
    SumCombination(WeightedResiduals(data, c), XYs(data), XXs(data), Xs(data), c.slope, c.intercept);
  }

  /** The residuals of the fitted line sum to zero, and so do the residuals
      weighted by x. */
  lemma NormalEquations(data: seq<DataPoint>, c: Coefficients)
    requires Fit(data) == Ok(c)
    ensures Sum(Residuals(data, c)) == 0.0
    ensures Sum(WeightedResiduals(data, c)) == 0.0
  {
    FitSolvesNormalEquations(data, c);
    ResidualSum(data, c);
    WeightedResidualSum(data, c);
  }

  /** Term-wise relations between columns, named so that lemmas can pass
      them along whole. */

  predicate IsProducts(pr: seq<real>, u: seq<real>, v: seq<real>)
  {
    |pr| == |u| && |v| == |u| && forall i :: 0 <= i < |u| ==> pr[i] == u[i] * v[i]
  }

  predicate IsShiftedBy(e: seq<real>, r: seq<real>, d: seq<real>)
  {
    |e| == |r| && |d| == |r| && forall i :: 0 <= i < |r| ==> e[i] == r[i] + d[i]
  }

  predicate IsAffine(d: seq<real>, xs: seq<real>, p: real, q: real)
  {
    |d| == |xs| && forall i :: 0 <= i < |xs| ==> d[i] == p * xs[i] + q
  }

  /** Moving from residual r to e = r + d adds the cross term 2·r·d and the
      non-negative square d². */
  lemma ElementGap(r: real, e: real, d: real, g: real, r2: real, e2: real)
    requires e == r + d && g == r * d && r2 == r * r && e2 == e * e
    ensures e2 - r2 - 2.0 * g >= 0.0
  {
    SquareNonNegative(d);
    assert e2 == r2 + 2.0 * g + d * d;
  }

  /** Σe² − Σr² − 2·Σg ≥ 0 for e = r + d and g = r·d. */
  lemma {:induction false} SumOfGaps(rs: seq<real>, es: seq<real>, ds: seq<real>, gs: seq<real>,
                                     r2s: seq<real>, e2s: seq<real>)
    requires IsShiftedBy(es, rs, ds) && IsProducts(gs, rs, ds)
    requires IsSquares(r2s, rs) && IsSquares(e2s, es)
    ensures Sum(e2s) - Sum(r2s) - 2.0 * Sum(gs) >= 0.0
  {
    if |rs| > 0 {
      var k := |rs| - 1;
      SumOfGaps(rs[..k], es[..k], ds[..k], gs[..k], r2s[..k], e2s[..k]);
      ElementGap(rs[k], es[k], ds[k], gs[k], r2s[k], e2s[k]);
      GapsStep(Sum(e2s[..k]), Sum(r2s[..k]), Sum(gs[..k]), e2s[k], r2s[k], gs[k]);
    }
  }

  /** Adding one non-negative gap to a non-negative total keeps it so. */
  lemma GapsStep(e0: real, r0: real, g0: real, e: real, r: real, g: real)
    requires e0 - r0 - 2.0 * g0 >= 0.0 && e - r - 2.0 * g >= 0.0
    ensures (e0 + e) - (r0 + r) - 2.0 * (g0 + g) >= 0.0
  {
  }

  /** The cross term r·(p·x + q) is p·(x·r) + q·r. */
  lemma CrossTerms(xs: seq<real>, rs: seq<real>, ds: seq<real>, gs: seq<real>, xrs: seq<real>, p: real, q: real)
    requires IsAffine(ds, xs, p, q) && IsProducts(gs, rs, ds) && IsProducts(xrs, xs, rs)
    ensures forall i :: 0 <= i < |gs| ==> gs[i] == p * xrs[i] + q * rs[i]
  {
  }

  /** The cross terms vanish in total when Σr = 0 and Σx·r = 0. */
  lemma CrossTermsVanish(xs: seq<real>, rs: seq<real>, ds: seq<real>, gs: seq<real>, xrs: seq<real>, p: real, q: real)
    requires IsAffine(ds, xs, p, q) && IsProducts(gs, rs, ds) && IsProducts(xrs, xs, rs)
    requires Sum(rs) == 0.0 && Sum(xrs) == 0.0
    ensures Sum(gs) == 0.0
  {
    CrossTerms(xs, rs, ds, gs, xrs, p, q);
    SumLinear(gs, xrs, rs, p, q);
  }

  /** The cross terms g = r·d as a column. */
  lemma CrossColumn(rs: seq<real>, ds: seq<real>) returns (gs: seq<real>)
    requires |ds| == |rs|
    ensures IsProducts(gs, rs, ds)
  {
    gs := seq(|rs|, i requires 0 <= i < |rs| => rs[i] * ds[i]);
  }

  /** When Σr = 0 and Σx·r = 0, no residuals e = r + (p·x + q) of another
      line have a smaller sum of squares. */
  lemma OrthogonalResidualsAreLeast(xs: seq<real>, rs: seq<real>, es: seq<real>, ds: seq<real>, xrs: seq<real>,
                                    r2s: seq<real>, e2s: seq<real>, p: real, q: real)
    requires IsAffine(ds, xs, p, q) && IsShiftedBy(es, rs, ds) && IsProducts(xrs, xs, rs)
    requires IsSquares(r2s, rs) && IsSquares(e2s, es)
    requires Sum(rs) == 0.0 && Sum(xrs) == 0.0
    ensures Sum(r2s) <= Sum(e2s)
  {
    var gs := CrossColumn(rs, ds);
    SumOfGaps(rs, es, ds, gs, r2s, e2s);
    CrossTermsVanish(xs, rs, ds, gs, xrs, p, q);
  }

  /** Another line's residual is the fitted one plus the gap between the lines. */
  lemma ResidualShift(x: real, y: real, m: real, b: real, m2: real, b2: real, r: real, e: real)
    requires r == y - (m * x + b) && e == y - (m2 * x + b2)
    ensures e == r + ((m - m2) * x + (b - b2))
  {
  }

  /** The vertical gaps between two lines at each x, and the residuals
      against the second line in terms of them. */
  lemma LineGaps(data: seq<DataPoint>, c: Coefficients, other: Coefficients) returns (ds: seq<real>)
    ensures IsAffine(ds, Xs(data), c.slope - other.slope, c.intercept - other.intercept)
    ensures IsShiftedBy(Residuals(data, other), Residuals(data, c), ds)
  {
    var p, q := c.slope - other.slope, c.intercept - other.intercept;
    ds := seq(|data|, i requires 0 <= i < |data| => p * Xs(data)[i] + q);
    ResidualColumns(data, c);
    ResidualColumns(data, other);
    forall i | 0 <= i < |data|
      ensures Residuals(data, other)[i] == Residuals(data, c)[i] + ds[i]
    {
      ResidualShift(Xs(data)[i], Ys(data)[i], c.slope, c.intercept, other.slope, other.intercept,
                    Residuals(data, c)[i], Residuals(data, other)[i]);
    }
  }

  /** Squares builds the column of squares. */
  lemma SquaresColumn(s: seq<real>)
    ensures IsSquares(Squares(s), s)
  {
  }

  /** Any line whose residuals are orthogonal to 1 and to x has the least
      sum of squared residuals. */
  lemma OrthogonalLineIsLeast(data: seq<DataPoint>, c: Coefficients, other: Coefficients)
    requires Sum(Residuals(data, c)) == 0.0 && Sum(WeightedResiduals(data, c)) == 0.0
    ensures SquaredError(data, c) <= SquaredError(data, other)
  {
    ResidualColumns(data, c);
    var ds := LineGaps(data, c, other);
    SquaresColumn(Residuals(data, c));
    SquaresColumn(Residuals(data, other));
    OrthogonalResidualsAreLeast(Xs(data), Residuals(data, c), Residuals(data, other), ds, WeightedResiduals(data, c),
                                Squares(Residuals(data, c)), Squares(Residuals(data, other)),
                                c.slope - other.slope, c.intercept - other.intercept);
  }

  /** linearRegression is least squares: no line has a smaller sum of
      squared residuals than the fitted one. */
  lemma FitMinimizesSquaredError(data: seq<DataPoint>, c: Coefficients, other: Coefficients)
    requires Fit(data) == Ok(c)
    ensures SquaredError(data, c) <= SquaredError(data, other)
  {
    NormalEquations(data, c);
    OrthogonalLineIsLeast(data, c, other);
  }

  // ---------------------------------------------------------------------
  // main: read, number, fit, and predict the next day
  // ---------------------------------------------------------------------

  /** What main reports on success. */
  datatype Forecast = Forecast(coefficients: Coefficients, nextX: real, predicted: real)

  /** main's outcome for a file with these lines. */
  function ForecastOf(lines: seq<string>, parse: string -> Option<real>): Result<Forecast, Error>
  {
    var data := ReadRows(lines, parse);
    if |data| == 0 then Err(NoValidData)
    else
      match Fit(Numbered(data))
      case Err(e) => Err(e)
      case Ok(c) =>
        var nextX := (|data| + 1) as real;
        Ok(Forecast(c, nextX, Predict(c, nextX)))
  }

  /** main, after the argument check: readCSV, the empty check,
      assignXIndices on the vector, linearRegression and predict. */
  method Run(lines: seq<string>, parse: string -> Option<real>) returns (outcome: Result<Forecast, Error>)
    ensures outcome == ForecastOf(lines, parse)
  {
    var data := ReadCSV(lines, parse);
    if |data| == 0 {
      return Err(NoValidData);
    }
    var points := new DataPoint[|data|](i requires 0 <= i < |data| => data[i]);
    assert points[..] == data;
    AssignXIndices(points);
    var numbered := points[..];
    assert numbered == Numbered(data);
    var coeff := LinearRegression(numbered);
    match coeff {
      case Err(e) =>
        return Err(e);
      case Ok(c) =>
        var nextX := (|data| + 1) as real;
        var predictedPrice := Predict(c, nextX);
        return Ok(Forecast(c, nextX, predictedPrice));
    }
  }

  /** The program stops with an error exactly when fewer than two lines
      yield a price: with none it reports that no data was found, with one
      the denominator is zero. */
  lemma ForecastFailsIff(lines: seq<string>, parse: string -> Option<real>)
    ensures ForecastOf(lines, parse).Err? <==> |ReadRows(lines, parse)| < 2
    ensures ForecastOf(lines, parse) == Err(NoValidData) <==> |ReadRows(lines, parse)| == 0
  {
    var data := ReadRows(lines, parse);
    FitFailsIffAllXEqual(Numbered(data));
    NumberedXsEqualIff(data);
  }

  /** The day number assignXIndices gives the point at index i. */
  function Day(i: nat): (d: real)
    ensures d >= 1.0
  {
    (i + 1) as real
  }

  /** Prices that grow by a each day from b + a on day 1 are fitted exactly,
      and the forecast continues the line to day n + 1. */
  lemma ForecastOfLinearTrend(lines: seq<string>, parse: string -> Option<real>, a: real, b: real)
    requires |ReadRows(lines, parse)| >= 2
    requires forall i :: 0 <= i < |ReadRows(lines, parse)| ==>
      ReadRows(lines, parse)[i].y == a * Day(i) + b
    ensures ForecastOf(lines, parse) ==
      Ok(Forecast(Coefficients(a, b), Day(|ReadRows(lines, parse)|),
                  Predict(Coefficients(a, b), Day(|ReadRows(lines, parse)|))))
    ensures ForecastOf(lines, parse).value.predicted == a * Day(|ReadRows(lines, parse)|) + b
  {
    TrendFit(ReadRows(lines, parse), a, b);
    ForecastOfFit(lines, parse, Coefficients(a, b));
    PredictOnLine(a, b, Day(|ReadRows(lines, parse)|));
  }

  /** Two or more prices a·(i + 1) + b, numbered by day, are fitted by the
      line (a, b). */
  lemma TrendFit(s: seq<DataPoint>, a: real, b: real)
    requires |s| >= 2
    requires forall i :: 0 <= i < |s| ==> s[i].y == a * Day(i) + b
    ensures Fit(Numbered(s)) == Ok(Coefficients(a, b))
  {
    NumberedXsEqualIff(s);
    NumberedAffine(s, a, b);
    FitRecoversAffine(Numbered(s), a, b);
  }

  /** Whenever the numbered points are fitted, main forecasts day n + 1 on
      the fitted line. */
  lemma ForecastOfFit(lines: seq<string>, parse: string -> Option<real>, c: Coefficients)
    requires |ReadRows(lines, parse)| > 0
    requires Fit(Numbered(ReadRows(lines, parse))) == Ok(c)
    ensures ForecastOf(lines, parse) ==
      Ok(Forecast(c, Day(|ReadRows(lines, parse)|), Predict(c, Day(|ReadRows(lines, parse)|))))
  {
  }

  /** Prices a·(i + 1) + b numbered by day lie on the line y = a·x + b. */
  lemma NumberedAffine(s: seq<DataPoint>, a: real, b: real)
    requires forall i :: 0 <= i < |s| ==> s[i].y == a * Day(i) + b
    ensures IsAffine(Ys(Numbered(s)), Xs(Numbered(s)), a, b)
  {
    NumberedColumns(s);
  }

  /** predict on the line (a, b) gives a·x + b. */
  lemma PredictOnLine(a: real, b: real, x: real)
    ensures Predict(Coefficients(a, b), x) == a * x + b
  {
  }
}
