/** gamma_board: the board as text, the top row first, one line per row. */
module BoardText {
  import opened Walks
  import opened Grid
  import opened GammaState
  import opened Utilities

  /** The smallest number with more than nine digits. */
  const Wide: nat := 1_000_000_000

  /** The text of one field: '.' when it is empty, else its owner's number in
      decimal, between two '|' when that number has more than nine digits. */
  function FieldText(o: nat): seq<char>
  {
    if o == 0 then "."
    else if o >= Wide then "|" + Decimal(o) + "|"
    else Decimal(o)
  }

  /** The text of a row of owners, left to right. */
  function Line(os: seq<nat>): seq<char>
  {
    if os == [] then [] else Line(os[..|os| - 1]) + FieldText(os[|os| - 1])
  }

  /** The text of rows given top first, each followed by a line end. */
  function Lines(rs: seq<seq<nat>>): seq<char>
  {
    if rs == [] then [] else Lines(rs[..|rs| - 1]) + Line(rs[|rs| - 1]) + "\n"
  }

  /** The owners of row y of a board, left to right. */
  function RowOwners(b: Board, w: nat, h: nat, y: nat): (os: seq<nat>)
    requires Rect(b, w, h) && y < h
    ensures |os| == w && forall x :: 0 <= x < w ==> InB(b, Pos(x, y)) && os[x] == Owner(b, Pos(x, y))
  {
    seq(w, x requires 0 <= x < w => b[x][y].playerNumber)
  }

  /** The rows of a board, the top one (y = h-1) first. */
  function TopDown(b: Board, w: nat, h: nat): (rs: seq<seq<nat>>)
    requires Rect(b, w, h)
    ensures |rs| == h && forall r :: 0 <= r < h ==> rs[r] == RowOwners(b, w, h, h - 1 - r)
  {
    seq(h, r requires 0 <= r < h => RowOwners(b, w, h, h - 1 - r))
  }

  /** The text gamma_board returns, without its terminating NUL. */
  function Text(b: Board, w: nat, h: nat): seq<char>
    requires Rect(b, w, h)
  {
    Lines(TopDown(b, w, h))
  }

  /** The size of the buffer gamma_board allocates: room for 2 + Digits(n)
      characters per field and line end when n has several digits, for one
      otherwise, and two more. */
  function Capacity(w: nat, h: nat, n: nat): nat
  {
    if Digits(n) > 1 then (w + 1) * h * (2 + Digits(n)) + 2 else (w + 1) * h + 2
  }

  /** The room one field may need, for owners up to n. */
  function FieldRoom(n: nat): nat
  {
    if Digits(n) > 1 then 2 + Digits(n) else 1
  }

  /** The character a field shows when every player number has one digit. */
  function Glyph(o: nat): char
    requires o < 10
  {
    if o == 0 then '.' else DigitChar(o)
  }

  /** The number of line ends in s. */
  function LineEnds(s: seq<char>): nat
  {
    if s == [] then 0 else LineEnds(s[..|s| - 1]) + if s[|s| - 1] == '\n' then 1 else 0
  }

  // Arithmetic steps, kept apart so that no proof about texts has to find them.

  lemma MulStep(k: nat, c: nat)
    requires k > 0
    ensures k * c == (k - 1) * c + c
  {
  }

  lemma AddBound(a: nat, f: nat, k: nat, c: nat)
    requires k > 0 && a <= (k - 1) * c && f <= c
    ensures a + f <= k * c
  {
    MulStep(k, c);
  }

  lemma AddLeast(a: nat, f: nat, k: nat, c: nat)
    requires k > 0 && (k - 1) * c <= a && c <= f
    ensures k * c <= a + f
  {
    MulStep(k, c);
  }

  lemma MulMono(a: nat, c: nat, d: nat)
    requires a <= c
    ensures a * d <= c * d
  {
  }

  lemma MulNonneg(a: nat, c: nat)
    ensures a * c >= 0
  {
  }

  lemma MulSwap(h: nat, a: nat, c: nat)
    ensures h * (a * c) == a * h * c
  {
  }

  /** Field x of line r lies before line k when r < k. */
  lemma IndexBelow(r: nat, x: nat, k: nat, w: nat)
    requires r < k && x <= w
    ensures r * (w + 1) + x < k * (w + 1)
  {
    MulStep(r + 1, w + 1);
    MulMono(r + 1, k, w + 1);
  }

  lemma LengthStep(front: seq<char>, row: seq<char>, k: nat, w: nat)
    requires |front| == k * (w + 1) && |row| == w
    ensures |front + row + "\n"| == (k + 1) * (w + 1)
  {
    MulStep(k + 1, w + 1);
  }

  // Fields.

  lemma DigitsMono(x: nat, y: nat)
    requires x <= y
    ensures Digits(x) <= Digits(y)
  {
    if x > 0 {
      DigitsMono(x / 10, y / 10);
    }
  }

  /** A number has more than nine digits exactly when it is at least Wide. */
  lemma WideDigits(o: nat)
    ensures o >= Wide <==> Digits(o) > 9
  {
    DigitsBounds(o);
    assert Pow10(9) == Wide;
    if Digits(o) > 9 {
      PowMonotone(9, Digits(o) - 1);
    } else {
      PowMonotone(Digits(o), 9);
    }
  }

  /** The length of a field's text. */
  lemma FieldLength(o: nat)
    ensures |FieldText(o)| == if o == 0 then 1 else if Digits(o) > 9 then Digits(o) + 2 else Digits(o)
  {
    WideDigits(o);
  }

  /** A field of a player up to n fits the room FieldRoom(n). */
  lemma FieldFits(o: nat, n: nat)
    requires o <= n
    ensures |FieldText(o)| <= FieldRoom(n)
  {
    DigitsMono(o, n);
    FieldLength(o);
    if o > 0 {
      DigitsBounds(o);
    }
  }

  /** '|' appears in a field's text exactly when its owner has more than nine digits. */
  lemma FieldBars(o: nat)
    ensures '|' in FieldText(o) <==> Digits(o) > 9
  {
    WideDigits(o);
    if o != 0 {
      var d := Decimal(o);
      assert '|' !in d by {
        forall i | 0 <= i < |d| ensures d[i] != '|' {
        }
      }
      if o >= Wide {
        assert FieldText(o)[0] == '|';
      }
    }
  }

  /** No field's text holds a line end. */
  lemma FieldNoNewline(o: nat)
    ensures '\n' !in FieldText(o)
  {
    if o != 0 {
      var d := Decimal(o);
      forall i | 0 <= i < |d| ensures d[i] != '\n' {
      }
    }
  }

  // Lines of owners.

  lemma LineStep(os: seq<nat>, j: nat)
    requires j < |os|
    ensures Line(os[..j + 1]) == Line(os[..j]) + FieldText(os[j])
  {
    assert os[..j + 1][..j] == os[..j];
  }

  lemma LinesStep(rs: seq<seq<nat>>, k: nat)
    requires k < |rs|
    ensures Lines(rs[..k + 1]) == Lines(rs[..k]) + Line(rs[k]) + "\n"
  {
    assert rs[..k + 1][..k] == rs[..k];
  }

  lemma {:induction false} LineGrows(os: seq<nat>, j: nat)
    requires j <= |os|
    ensures |Line(os[..j])| <= |Line(os)|
    decreases |os| - j
  {
    if j < |os| {
      LineStep(os, j);
      LineGrows(os, j + 1);
    } else {
      assert os[..j] == os;
    }
  }

  lemma {:induction false} LinesGrow(rs: seq<seq<nat>>, k: nat)
    requires k <= |rs|
    ensures |Lines(rs[..k])| <= |Lines(rs)|
    decreases |rs| - k
  {
    if k < |rs| {
      LinesStep(rs, k);
      LinesGrow(rs, k + 1);
    } else {
      assert rs[..k] == rs;
    }
  }

  lemma {:induction false} LineFits(os: seq<nat>, n: nat)
    requires forall i :: 0 <= i < |os| ==> os[i] <= n
    ensures |Line(os)| <= |os| * FieldRoom(n)
  {
    if os != [] {
      var k := |os| - 1;
      LineFits(os[..k], n);
      FieldFits(os[k], n);
      AddBound(|Line(os[..k])|, |FieldText(os[k])|, |os|, FieldRoom(n));
    }
  }

  lemma {:induction false} LinesFit(rs: seq<seq<nat>>, w: nat, n: nat)
    requires forall r :: 0 <= r < |rs| ==> |rs[r]| == w && forall i :: 0 <= i < w ==> rs[r][i] <= n
    ensures |Lines(rs)| <= |rs| * ((w + 1) * FieldRoom(n))
  {
    if rs != [] {
      var k := |rs| - 1;
      var c := FieldRoom(n);
      LinesFit(rs[..k], w, n);
      LineFits(rs[k], n);
      MulStep(w + 1, c);
      AddBound(|Lines(rs[..k])|, |Line(rs[k])| + 1, |rs|, (w + 1) * c);
    }
  }

  /** Every field takes at least one character, so a row of w fields at
      least w. */
  lemma {:induction false} LineLeast(os: seq<nat>)
    ensures |os| <= |Line(os)|
  {
    if os != [] {
      var k := |os| - 1;
      LineLeast(os[..k]);
      FieldLength(os[k]);
    }
  }

  /** With its line end, every row of w fields takes at least w + 1 characters. */
  lemma {:induction false} LinesLeast(rs: seq<seq<nat>>, w: nat, j: nat)
    requires j <= |rs| && forall r :: 0 <= r < |rs| ==> |rs[r]| == w
    ensures j * (w + 1) <= |Lines(rs[..j])|
  {
    if j > 0 {
      var a, f := |Lines(rs[..j - 1])|, |Line(rs[j - 1])| + 1;
      assert (j - 1) * (w + 1) <= a by {
        LinesLeast(rs, w, j - 1);
      }
      assert w + 1 <= f by {
        LineLeast(rs[j - 1]);
      }
      assert |Lines(rs[..j])| == a + f by {
        LinesStep(rs, j - 1);
      }
      AddLeast(a, f, j, w + 1);
    }
  }

  /** A text of at most 2^31 characters keeps every size gamma_board computes
      exact: width + 1 within 32 bits, height - 1 within an int, and the
      buffer size within 64 bits. */
  lemma SizesFit(b: Board, w: nat, h: nat, n: nat)
    requires Rect(b, w, h) && n < IntLimit && |Text(b, w, h)| <= IntLimit
    ensures h > 0 ==> w + 1 <= IntLimit
    ensures h <= IntLimit
    ensures (w + 1) * h <= IntLimit
    ensures Capacity(w, h, n) < 0x1_0000_0000_0000_0000
  {
    var f := (w + 1) * h;
    assert h * (w + 1) <= |Text(b, w, h)| by {
      LinesLeast(TopDown(b, w, h), w, h);
      LinesAll(TopDown(b, w, h), h);
    }
    MulSwap(1, h, w + 1);
    MulMono(1, w + 1, h);
    if h > 0 {
      MulMono(1, h, w + 1);
    }
    DigitsAtMost(n);
    ProductBound(f, 2 + Digits(n));
  }

  /** A product of a count up to 2^31 and a factor up to 12, plus two, fits 64 bits. */
  lemma ProductBound(f: nat, d: nat)
    requires f <= IntLimit && d <= 12
    ensures f * d + 2 < 0x1_0000_0000_0000_0000
  {
    MulMono(d, 12, f);
    MulMono(f, IntLimit, 12);
  }

  lemma {:induction false} LineNoNewline(os: seq<nat>)
    ensures '\n' !in Line(os)
  {
    if os != [] {
      LineNoNewline(os[..|os| - 1]);
      FieldNoNewline(os[|os| - 1]);
    }
  }

  lemma {:induction false} LineEndsAppend(a: seq<char>, c: seq<char>)
    ensures LineEnds(a + c) == LineEnds(a) + LineEnds(c)
    decreases |c|
  {
    if c != [] {
      assert (a + c)[..|a + c| - 1] == a + c[..|c| - 1];
      LineEndsAppend(a, c[..|c| - 1]);
    } else {
      assert a + c == a;
    }
  }

  lemma {:induction false} LineEndsNone(s: seq<char>)
    requires '\n' !in s
    ensures LineEnds(s) == 0
    decreases |s|
  {
    if s != [] {
      LineEndsNone(s[..|s| - 1]);
    }
  }

  /** Rows of owners give one line end each. */
  lemma {:induction false} LinesEnds(rs: seq<seq<nat>>)
    ensures LineEnds(Lines(rs)) == |rs|
  {
    if rs != [] {
      var k := |rs| - 1;
      LinesEnds(rs[..k]);
      LineNoNewline(rs[k]);
      LineEndsNone(Line(rs[k]));
      LineEndsAppend(Lines(rs[..k]), Line(rs[k]));
      LineEndsAppend(Lines(rs[..k]) + Line(rs[k]), "\n");
    }
  }

  /** Some owner in os has more than nine digits. */
  ghost predicate WideIn(os: seq<nat>)
  {
    exists i :: 0 <= i < |os| && Digits(os[i]) > 9
  }

  /** Some owner in some row of rs has more than nine digits. */
  ghost predicate WideRow(rs: seq<seq<nat>>)
  {
    exists r :: 0 <= r < |rs| && WideIn(rs[r])
  }

  lemma {:induction false} LineBars(os: seq<nat>)
    ensures '|' in Line(os) <==> WideIn(os)
  {
    if os != [] {
      var k := |os| - 1;
      LineBars(os[..k]);
      FieldBars(os[k]);
      LineIn(os, '|');
      WideInSplit(os);
    }
  }

  /** A character occurs in a row's text when it occurs in the text of all
      fields but the last, or in the last. */
  lemma LineIn(os: seq<nat>, c: char)
    requires os != []
    ensures c in Line(os) <==> c in Line(os[..|os| - 1]) || c in FieldText(os[|os| - 1])
  {
  }

  lemma WideInSplit(os: seq<nat>)
    requires os != []
    ensures WideIn(os) <==> WideIn(os[..|os| - 1]) || Digits(os[|os| - 1]) > 9
  {
    var k := |os| - 1;
    if WideIn(os[..k]) {
      var i :| 0 <= i < k && Digits(os[..k][i]) > 9;
      assert os[i] == os[..k][i];
    }
    if WideIn(os) {
      var i :| 0 <= i < |os| && Digits(os[i]) > 9;
      if i < k {
        assert os[..k][i] == os[i];
      }
    }
  }

  lemma {:induction false} LinesBars(rs: seq<seq<nat>>)
    ensures '|' in Lines(rs) <==> WideRow(rs)
  {
    if rs != [] {
      var k := |rs| - 1;
      LinesBars(rs[..k]);
      LineBars(rs[k]);
      LinesIn(rs, '|');
      WideRowSplit(rs);
    }
  }

  /** A character other than the line end occurs in the text of rows when it
      occurs in that of all rows but the last, or in the last row's. */
  lemma LinesIn(rs: seq<seq<nat>>, c: char)
    requires rs != [] && c != '\n'
    ensures c in Lines(rs) <==> c in Lines(rs[..|rs| - 1]) || c in Line(rs[|rs| - 1])
  {
  }

  lemma WideRowSplit(rs: seq<seq<nat>>)
    requires rs != []
    ensures WideRow(rs) <==> WideRow(rs[..|rs| - 1]) || WideIn(rs[|rs| - 1])
  {
    var k := |rs| - 1;
    if WideRow(rs[..k]) {
      var r :| 0 <= r < k && WideIn(rs[..k][r]);
      assert rs[r] == rs[..k][r];
    }
    if WideRow(rs) {
      var r :| 0 <= r < |rs| && WideIn(rs[r]);
      if r < k {
        assert rs[..k][r] == rs[r];
      }
    }
  }

  lemma {:induction false} LineAt(os: seq<nat>, x: nat)
    requires forall i :: 0 <= i < |os| ==> os[i] < 10
    ensures |Line(os)| == |os|
    ensures x < |os| ==> Line(os)[x] == Glyph(os[x])
  {
    if os != [] {
      var k := |os| - 1;
      LineAt(os[..k], x);
      LineAtStep(os, x);
    }
  }

  /** The step of LineAt: the last field adds its one glyph. */
  lemma LineAtStep(os: seq<nat>, x: nat)
    requires os != [] && forall i :: 0 <= i < |os| ==> os[i] < 10
    requires |Line(os[..|os| - 1])| == |os| - 1
    requires x < |os| - 1 ==> Line(os[..|os| - 1])[x] == Glyph(os[..|os| - 1][x])
    ensures |Line(os)| == |os|
    ensures x < |os| ==> Line(os)[x] == Glyph(os[x])
  {
    var k := |os| - 1;
    assert FieldText(os[k]) == [Glyph(os[k])];
  }

  /** Indexing into a row followed by its line end. */
  lemma AppendAt(front: seq<char>, row: seq<char>, i: nat)
    requires i < |front| + |row| + 1
    ensures (front + row + "\n")[i] == if i < |front| then front[i] else if i < |front| + |row| then row[i - |front|] else '\n'
  {
  }

  /** Where row r begins when every row takes w + 1 characters. */
  function Start(r: nat, w: nat): nat
  {
    if r == 0 then 0 else Start(r - 1, w) + w + 1
  }

  lemma {:induction false} StartIs(r: nat, w: nat)
    ensures Start(r, w) == r * (w + 1)
  {
    if r > 0 {
      StartIs(r - 1, w);
      MulStep(r, w + 1);
    }
  }

  /** Column x of row r comes before row k when r < k. */
  lemma {:induction false} StartBelow(r: nat, x: nat, k: nat, w: nat)
    requires r < k && x <= w
    ensures Start(r, w) + x < Start(k, w)
    decreases k
  {
    if r < k - 1 {
      StartBelow(r, x, k - 1, w);
    }
  }

  /** The first j rows of w one-character fields take Start(j, w) characters. */
  lemma {:induction false} LinesStart(rs: seq<seq<nat>>, w: nat, j: nat)
    requires forall r' :: 0 <= r' < |rs| ==> |rs[r']| == w && forall i :: 0 <= i < w ==> rs[r'][i] < 10
    requires j <= |rs|
    ensures |Lines(rs[..j])| == Start(j, w)
  {
    if j > 0 {
      var front, row := Lines(rs[..j - 1]), Line(rs[j - 1]);
      assert |front| == Start(j - 1, w) by {
        LinesStart(rs, w, j - 1);
      }
      assert |row| == w by {
        LineAt(rs[j - 1], 0);
      }
      assert Lines(rs[..j]) == front + row + "\n" by {
        LinesStep(rs, j - 1);
      }
    }
  }

  /** Character x of row r, or its line end, in the text of the first j rows. */
  lemma LinesPrefixAt(rs: seq<seq<nat>>, w: nat, j: nat, r: nat, x: nat)
    requires forall r' :: 0 <= r' < |rs| ==> |rs[r']| == w && forall i :: 0 <= i < w ==> rs[r'][i] < 10
    requires x <= w && r < j <= |rs|
    ensures |Line(rs[r])| == w && Start(r, w) + x < |Lines(rs[..j])|
    ensures Lines(rs[..j])[Start(r, w) + x] == (Line(rs[r]) + "\n")[x]
  {
    LastRowSplit(rs, w, r + 1);
    AppendAt(Lines(rs[..r]), Line(rs[r]), Start(r, w) + x);
    LinesPrefix(rs, r + 1, j);
    PrefixIndex(Lines(rs[..r + 1]), Lines(rs[..j]), Start(r, w) + x);
  }

  /** The text of the first k rows begins the text of the first j rows. */
  lemma {:induction false} LinesPrefix(rs: seq<seq<nat>>, k: nat, j: nat)
    requires k <= j <= |rs|
    ensures Lines(rs[..k]) <= Lines(rs[..j])
    decreases j
  {
    if k < j {
      LinesPrefix(rs, k, j - 1);
      LinesStep(rs, j - 1);
    }
  }

  lemma PrefixIndex(a: seq<char>, b: seq<char>, i: nat)
    requires a <= b && i < |a|
    ensures i < |b| && b[i] == a[i]
  {
  }

  /** The first j rows are the first j - 1 rows, then row j - 1 and its line end. */
  lemma LastRowSplit(rs: seq<seq<nat>>, w: nat, j: nat)
    requires forall r' :: 0 <= r' < |rs| ==> |rs[r']| == w && forall i :: 0 <= i < w ==> rs[r'][i] < 10
    requires 0 < j <= |rs|
    ensures |Lines(rs[..j - 1])| == Start(j - 1, w) && |Line(rs[j - 1])| == w
    ensures Lines(rs[..j]) == Lines(rs[..j - 1]) + Line(rs[j - 1]) + "\n"
  {
    LinesStart(rs, w, j - 1);
    LineAt(rs[j - 1], 0);
    LinesStep(rs, j - 1);
  }

  lemma LinesAt(rs: seq<seq<nat>>, w: nat, r: nat, x: nat)
    requires forall r' :: 0 <= r' < |rs| ==> |rs[r']| == w && forall i :: 0 <= i < w ==> rs[r'][i] < 10
    requires x <= w
    ensures |Lines(rs)| == |rs| * (w + 1)
    ensures r < |rs| ==> r * (w + 1) + x < |Lines(rs)| && Lines(rs)[r * (w + 1) + x] == if x == w then '\n' else Glyph(rs[r][x])
  {
    LinesStart(rs, w, |rs|);
    LinesAll(rs, |rs|);
    StartIs(|rs|, w);
    if r < |rs| {
      LinesPrefixAt(rs, w, |rs|, r, x);
      StartIs(r, w);
      LineAt(rs[r], x);
    }
  }

  // The board's text.

  lemma OwnersBound(b: Board, w: nat, h: nat, n: nat)
    requires Rect(b, w, h)
    requires forall q :: InB(b, q) ==> Owner(b, q) <= n
    ensures forall r :: 0 <= r < h ==> |TopDown(b, w, h)[r]| == w && forall i :: 0 <= i < w ==> TopDown(b, w, h)[r][i] <= n
  {
  }

  /** The text and its terminating NUL fit the buffer gamma_board allocates,
      when no owner exceeds n. */
  lemma TextFits(b: Board, w: nat, h: nat, n: nat)
    requires Rect(b, w, h)
    requires forall q :: InB(b, q) ==> Owner(b, q) <= n
    ensures |Text(b, w, h)| + 1 <= Capacity(w, h, n)
  {
    var c := FieldRoom(n);
    OwnersBound(b, w, h, n);
    LinesFit(TopDown(b, w, h), w, n);
    MulSwap(h, w + 1, c);
    if Digits(n) > 1 {
      assert Capacity(w, h, n) == (w + 1) * h * c + 2;
    } else {
      assert c == 1 && Capacity(w, h, n) == (w + 1) * h + 2;
    }
  }

  /** The text has exactly one line end per row. */
  lemma TextEnds(b: Board, w: nat, h: nat)
    requires Rect(b, w, h)
    ensures LineEnds(Text(b, w, h)) == h
  {
    LinesEnds(TopDown(b, w, h));
  }

  /** A '|' appears in the text exactly when some field's owner has more than
      nine digits. */
  lemma TextBars(b: Board, w: nat, h: nat)
    requires Rect(b, w, h)
    ensures '|' in Text(b, w, h) <==> exists q :: InB(b, q) && Digits(Owner(b, q)) > 9
  {
    LinesBars(TopDown(b, w, h));
    WideBoard(b, w, h);
  }

  /** Some row of the text has a wide owner exactly when some field has. */
  lemma WideBoard(b: Board, w: nat, h: nat)
    requires Rect(b, w, h)
    ensures WideRow(TopDown(b, w, h)) <==> exists q :: InB(b, q) && Digits(Owner(b, q)) > 9
  {
    var rs := TopDown(b, w, h);
    if WideRow(rs) {
      var r :| 0 <= r < |rs| && WideIn(rs[r]);
      var i :| 0 <= i < |rs[r]| && Digits(rs[r][i]) > 9;
      OwnerAt(b, w, h, i, h - 1 - r);
    }
    if exists q :: InB(b, q) && Digits(Owner(b, q)) > 9 {
      var q :| InB(b, q) && Digits(Owner(b, q)) > 9;
      OwnerAt(b, w, h, q.x, q.y);
      assert WideIn(rs[h - 1 - q.y]);
    }
  }

  /** With player numbers of one digit, the text has h lines of w + 1
      characters: line h-1-y shows the fields of row y from the left, '.' for
      an empty field and the owner's digit otherwise, then a line end. */
  lemma TextAt(b: Board, w: nat, h: nat, x: nat, y: nat)
    requires Rect(b, w, h) && y < h && x <= w
    requires forall q :: InB(b, q) ==> Owner(b, q) < 10
    ensures |Text(b, w, h)| == h * (w + 1)
    ensures InB(b, Pos(x, y)) || x == w
    ensures 0 <= (h - 1 - y) * (w + 1) + x < |Text(b, w, h)|
    ensures Text(b, w, h)[(h - 1 - y) * (w + 1) + x] == if x == w then '\n' else Glyph(Owner(b, Pos(x, y)))
  {
    var rs := TopDown(b, w, h);
    OwnersSmall(b, w, h);
    MulNonneg(h - 1 - y, w + 1);
    LinesAt(rs, w, h - 1 - y, x);
    if x < w {
      OwnerAt(b, w, h, x, y);
    }
  }

  /** Every owner the text shows has one digit, when every field's has. */
  lemma OwnersSmall(b: Board, w: nat, h: nat)
    requires Rect(b, w, h)
    requires forall q :: InB(b, q) ==> Owner(b, q) < 10
    ensures forall r :: 0 <= r < |TopDown(b, w, h)| ==> |TopDown(b, w, h)[r]| == w && forall i :: 0 <= i < w ==> TopDown(b, w, h)[r][i] < 10
  {
  }

  /** Row h-1-y of the text shows the owner of field (x, y) at column x. */
  lemma OwnerAt(b: Board, w: nat, h: nat, x: nat, y: nat)
    requires Rect(b, w, h) && y < h && x < w
    ensures InB(b, Pos(x, y)) && TopDown(b, w, h)[h - 1 - y][x] == Owner(b, Pos(x, y))
  {
  }

  // gamma_board.

  /** The 32-bit sum width + 1 times the height is the exact product once a
      board of some height has width + 1 below 2^32. */
  lemma RowWrap(w: nat, h: nat)
    requires h > 0 ==> w + 1 < 0x1_0000_0000
    ensures (w + 1) % 0x1_0000_0000 * h == (w + 1) * h >= 0
  {
    if h > 0 {
      assert (w + 1) % 0x1_0000_0000 == w + 1;
    }
    MulNonneg(w + 1, h);
  }

  /** The body of gamma_board: row after row from the top, field after field
      from the left, into a buffer of Capacity characters; a NUL ends the text.
      The owners go to IntToString as a C int and the write position there is
      an int too, so the owners stay below 2^31 and the text within 2^31
      characters; width + 1 is summed in 32 bits, which SizesFit shows exact. */
  method GammaBoard(g: Game) returns (r: array<char>)
    requires g.Mirror() && g.numberOfPlayers < IntLimit
    requires forall q :: InB(g.cells, q) ==> Owner(g.cells, q) <= g.numberOfPlayers
    requires |Text(g.cells, g.width, g.height)| <= IntLimit
    ensures fresh(r) && r.Length == Capacity(g.width, g.height, g.numberOfPlayers)
    ensures |Text(g.cells, g.width, g.height)| < r.Length
    ensures r[..|Text(g.cells, g.width, g.height)|] == Text(g.cells, g.width, g.height)
    ensures r[|Text(g.cells, g.width, g.height)|] == '\0'
  {
    ghost var b := g.cells;
    ghost var rs := TopDown(b, g.width, g.height);
    var digits := NumberOfDigits(g.numberOfPlayers);
    SizesFit(b, g.width, g.height, g.numberOfPlayers);
    var row := (g.width + 1) % 0x1_0000_0000;
    RowWrap(g.width, g.height);
    var fields: nat := row * g.height;
    var size := if digits > 1 then fields * (2 + digits) + 2 else fields + 2;
    r := new char[size];
    TextFits(b, g.width, g.height, g.numberOfPlayers);
    assert Text(b, g.width, g.height) == Lines(rs);
    ShowsBoard(g, rs);
    var iter := WriteRows(g, r, rs);
    ghost var written := r[..iter];
    r[iter] := '\0';
    assert r[..iter] == written;
  }

  /** rs holds the owners of g's board, the top row first, none above n. */
  ghost predicate Shows(g: Game, rs: seq<seq<nat>>)
    reads g.board
  {
    && g.board.Length0 == g.width && g.board.Length1 == g.height && |rs| == g.height
    && (forall k :: 0 <= k < |rs| ==> |rs[k]| == g.width)
    && forall x, y :: 0 <= x < g.width && 0 <= y < g.height ==>
         g.board[x, y].playerNumber == rs[g.height - 1 - y][x] <= g.numberOfPlayers
  }

  lemma ShowsBoard(g: Game, rs: seq<seq<nat>>)
    requires g.Mirror()
    requires forall q :: InB(g.cells, q) ==> Owner(g.cells, q) <= g.numberOfPlayers
    requires rs == TopDown(g.cells, g.width, g.height)
    ensures Shows(g, rs)
  {
  }

  /** One more field of a row: the text gained and the room it still fits. */
  lemma RowAppend(front: seq<char>, os: seq<nat>, j: nat)
    requires j < |os|
    ensures (front + Line(os[..j])) + FieldText(os[j]) == front + Line(os[..j + 1])
    ensures |front| + |Line(os[..j + 1])| <= |front| + |Line(os)|
    ensures |front| + |Line(os[..j])| + |FieldText(os[j])| <= |front| + |Line(os)|
  {
    LineStep(os, j);
    LineGrows(os, j + 1);
  }

  /** The text after field j of a row, given the text before it. */
  lemma FieldAppended(front: seq<char>, os: seq<nat>, j: nat, before: seq<char>, after: seq<char>)
    requires j < |os| && before == front + Line(os[..j]) && after == before + FieldText(os[j])
    ensures after == front + Line(os[..j + 1])
    ensures |after| == |front| + |Line(os[..j + 1])| <= |front| + |Line(os)|
  {
    RowAppend(front, os, j);
  }

  /** The owners of row y, as Shows lays them out. */
  lemma ShowsRow(g: Game, rs: seq<seq<nat>>, y: nat)
    requires Shows(g, rs) && y < g.height
    ensures |rs[g.height - 1 - y]| == g.width
    ensures forall x :: 0 <= x < g.width ==> g.board[x, y].playerNumber == rs[g.height - 1 - y][x] <= g.numberOfPlayers
  {
    forall x | 0 <= x < g.width
      ensures g.board[x, y].playerNumber == rs[g.height - 1 - y][x] <= g.numberOfPlayers
    {
      assert 0 <= x < g.width && 0 <= y < g.height;
    }
  }

  /** The loop of gamma_board over the rows, from the top one down. */
  method WriteRows(g: Game, r: array<char>, ghost rs: seq<seq<nat>>) returns (iter: nat)
    requires Shows(g, rs) && g.numberOfPlayers < IntLimit
    requires |Lines(rs)| < r.Length && |Lines(rs)| <= IntLimit
    modifies r
    ensures iter == |Lines(rs)| && r[..iter] == Lines(rs)
  {
    iter := 0;
    var i: nat := g.height;
    while i > 0
      invariant i <= g.height == |rs|
      invariant iter == |Lines(rs[..g.height - i])| <= |Lines(rs)|
      invariant r[..iter] == Lines(rs[..g.height - i])
    {
      ghost var k := g.height - i;
      ghost var before := r[..iter];
      LinesStep(rs, k);
      LinesGrow(rs, k + 1);
      i := i - 1;
      ShowsRow(g, rs, i);
      iter := WriteRow(g, r, i, iter, rs[k]);
      assert r[..iter] == before + Line(rs[k]) + "\n";
    }
    LinesAll(rs, g.height - i);
  }

  /** The prefix of every row is the whole of them. */
  lemma LinesAll(rs: seq<seq<nat>>, n: nat)
    requires n == |rs|
    ensures Lines(rs[..n]) == Lines(rs)
  {
    assert rs[..n] == rs;
  }

  /** One pass of the outer loop of gamma_board: the owners os of row y,
      then a line end. */
  method WriteRow(g: Game, r: array<char>, y: nat, iter: nat, ghost os: seq<nat>) returns (next: nat)
    requires g.board.Length0 == g.width == |os| && g.board.Length1 == g.height && y < g.height
    requires forall x :: 0 <= x < g.width ==> g.board[x, y].playerNumber == os[x] <= g.numberOfPlayers
    requires g.numberOfPlayers < IntLimit
    requires iter + |Line(os)| < r.Length && iter + |Line(os)| <= IntLimit
    modifies r
    ensures next == iter + |Line(os)| + 1
    ensures r[..next] == old(r[..iter]) + Line(os) + "\n"
  {
    next := WriteFields(g, r, y, iter, os);
    ghost var done := r[..next];
    r[next] := '\n';
    next := next + 1;
    assert r[..next] == done + "\n";
  }

  /** The inner loop of gamma_board: the fields of row y, from the left. */
  method WriteFields(g: Game, r: array<char>, y: nat, iter: nat, ghost os: seq<nat>) returns (next: nat)
    requires g.board.Length0 == g.width == |os| && g.board.Length1 == g.height && y < g.height
    requires forall x :: 0 <= x < g.width ==> g.board[x, y].playerNumber == os[x] <= g.numberOfPlayers
    requires g.numberOfPlayers < IntLimit
    requires iter + |Line(os)| <= r.Length && iter + |Line(os)| <= IntLimit
    modifies r
    ensures next == iter + |Line(os)|
    ensures r[..next] == old(r[..iter]) + Line(os)
  {
    ghost var front := r[..iter];
    ghost var room := iter + |Line(os)|;
    next := iter;
    var j := 0;
    while j < g.width
      invariant j <= g.width && |front| == iter
      invariant next == |front| + |Line(os[..j])| <= room
      invariant r[..next] == front + Line(os[..j])
    {
      var o := g.board[j, y].playerNumber;
      assert o == os[j] < IntLimit;
      next := AppendField(r, next, o, front, os, j);
      j := j + 1;
    }
    LineAll(os, j);
  }

  /** The prefix of every field of a row is the whole row. */
  lemma LineAll(os: seq<nat>, n: nat)
    requires n == |os|
    ensures Line(os[..n]) == Line(os)
  {
    assert os[..n] == os;
  }

  /** One pass of the inner loop: field j of the row joins the text written so far. */
  method AppendField(r: array<char>, iter: nat, o: nat, ghost front: seq<char>, ghost os: seq<nat>, ghost j: nat)
    returns (next: nat)
    requires j < |os| && o == os[j] < IntLimit
    requires |front| + |Line(os)| <= r.Length && |front| + |Line(os)| <= IntLimit
    requires iter == |front| + |Line(os[..j])| <= |front| + |Line(os)|
    requires r[..iter] == front + Line(os[..j])
    modifies r
    ensures next == |front| + |Line(os[..j + 1])| <= |front| + |Line(os)|
    ensures r[..next] == front + Line(os[..j + 1])
  {
    RowAppend(front, os, j);
    ghost var before := r[..iter];
    next := WriteField(r, iter, o);
    FieldAppended(front, os, j, before, r[..next]);
  }

  /** The text of one field at position iter of the buffer: '.', or the
      owner's digits written by IntToString, between '|' when there are more
      than nine of them. */
  method WriteField(r: array<char>, iter: nat, o: nat) returns (next: nat)
    requires o < IntLimit && iter + |FieldText(o)| <= r.Length && iter + |FieldText(o)| <= IntLimit
    modifies r
    ensures next == iter + |FieldText(o)|
    ensures r[..next] == old(r[..iter]) + FieldText(o)
  {
    if o == 0 {
      next := WriteDot(r, iter);
    } else {
      var nd := NumberOfDigits(o);
      FieldIs(o);
      if nd > 9 {
        next := WriteWide(r, iter, o, nd);
      } else {
        next := WriteNarrow(r, iter, o, nd);
      }
    }
  }

  /** The text of a field that is not empty, by the digit count the source tests. */
  lemma FieldIs(o: nat)
    requires o > 0
    ensures FieldText(o) == if Digits(o) > 9 then "|" + Decimal(o) + "|" else Decimal(o)
  {
    WideDigits(o);
  }

  /** The case of WriteField for an empty field. */
  method WriteDot(r: array<char>, iter: nat) returns (next: nat)
    requires iter < r.Length
    modifies r
    ensures next == iter + 1
    ensures r[..next] == old(r[..iter]) + "."
  {
    r[iter] := '.';
    next := iter + 1;
    assert r[..next] == r[..iter] + [r[iter]];
  }

  /** The case of WriteField without '|'. */
  method WriteNarrow(r: array<char>, iter: nat, o: nat, nd: nat) returns (next: nat)
    requires 0 < o < IntLimit && nd == Digits(o) && iter + nd <= r.Length && iter + nd <= IntLimit
    modifies r
    ensures next == iter + nd
    ensures r[..next] == old(r[..iter]) + Decimal(o)
  {
    ghost var pre := r[..iter];
    IntToString(o, r, nd, iter);
    next := iter + nd;
    assert r[..iter] == pre;
    assert r[..next] == r[..iter] + r[iter..next];
  }

  /** The '|'-delimited case of WriteField. */
  method WriteWide(r: array<char>, iter: nat, o: nat, nd: nat) returns (next: nat)
    requires 0 < o < IntLimit && nd == Digits(o) && iter + nd + 2 <= r.Length && iter + nd + 2 <= IntLimit
    modifies r
    ensures next == iter + nd + 2
    ensures r[..next] == old(r[..iter]) + ("|" + Decimal(o) + "|")
  {
    ghost var pre := r[..iter];
    r[iter] := '|';
    IntToString(o, r, nd, iter + 1);
    next := iter + 1 + nd;
    r[next] := '|';
    next := next + 1;
    assert r[..iter] == pre;
    assert r[iter + 1..iter + 1 + nd] == Decimal(o);
    assert r[..next] == r[..iter] + [r[iter]] + r[iter + 1..iter + 1 + nd] + [r[iter + 1 + nd]];
    assert pre + "|" + Decimal(o) + "|" == pre + ("|" + Decimal(o) + "|");
  }
}
