/** Small definitions shared by the site-script models. */
module Common {

  /** A value that may be missing: an absent attribute, a failed parse, a `null` result. */
  datatype Option<+T> = None | Some(value: T)

  function Min(a: int, b: int): int { if a <= b then a else b }

  function Max(a: int, b: int): int { if a >= b then a else b }

  /**
   * The characters JavaScript's `String.prototype.trim` and `parseInt` skip:
   * the WhiteSpace and LineTerminator code points of ECMAScript.
   */
  predicate IsJsWhitespace(c: char)
  {
    c == '\t' || c == '\n' || c == '\U{000B}' || c == '\U{000C}' || c == '\r' || c == ' '
    || c == '\U{00A0}' || c == '\U{1680}' || ('\U{2000}' <= c <= '\U{200A}')
    || c == '\U{2028}' || c == '\U{2029}' || c == '\U{202F}' || c == '\U{205F}'
    || c == '\U{3000}' || c == '\U{FEFF}'
  }

  /** `s` without its leading white space. */
  function TrimStart(s: string): (r: string)
    ensures r == [] || !IsJsWhitespace(r[0])
    ensures |r| <= |s| && r == s[|s| - |r|..]
    ensures forall i | 0 <= i < |s| - |r| :: IsJsWhitespace(s[i])
  {
    if s != [] && IsJsWhitespace(s[0]) then TrimStart(s[1..]) else s
  }

  /** Nothing is dropped from a string that does not start with white space. */
  lemma TrimStartKeeps(s: string)
    requires s == [] || !IsJsWhitespace(s[0])
    ensures TrimStart(s) == s
  {
  }

  /** `s` without its trailing white space. */
  function TrimEnd(s: string): (r: string)
    ensures r == [] || !IsJsWhitespace(r[|r| - 1])
    ensures |r| <= |s| && r == s[..|r|]
    ensures forall i | |r| <= i < |s| :: IsJsWhitespace(s[i])
  {
    if s != [] && IsJsWhitespace(s[|s| - 1]) then TrimEnd(s[..|s| - 1]) else s
  }

  /** `String.prototype.trim`. */
  function Trim(s: string): (r: string)
    ensures r == [] || (!IsJsWhitespace(r[0]) && !IsJsWhitespace(r[|r| - 1]))
  {
    TrimEnd(TrimStart(s))
  }

  /** Trimming keeps a middle slice of `s` and drops only white space on either side of it. */
  lemma TrimIsInnerSlice(s: string)
    ensures Lead(s) + |Trim(s)| <= |s|
    ensures Trim(s) == s[Lead(s)..Lead(s) + |Trim(s)|]
    ensures forall i | 0 <= i < Lead(s) :: IsJsWhitespace(s[i])
    ensures forall i | Lead(s) + |Trim(s)| <= i < |s| :: IsJsWhitespace(s[i])
  {
    var t := TrimStart(s);
    var a := Lead(s);
    assert t == s[a..];
    var r := TrimEnd(t);
    assert Trim(s) == r;
    TrailingOfSuffix(s, a, r);
  }

  /** How many white-space characters `s` starts with. */
  function Lead(s: string): (n: nat)
    ensures n <= |s|
  {
    |s| - |TrimStart(s)|
  }

  /** What `TrimEnd` drops from a suffix `s[a..]` is white space of `s`. */
  lemma TrailingOfSuffix(s: string, a: nat, r: string)
    requires a <= |s| && r == TrimEnd(s[a..])
    ensures a + |r| <= |s| && r == s[a..a + |r|]
    ensures forall i | a + |r| <= i < |s| :: IsJsWhitespace(s[i])
  {
    var t := s[a..];
    forall i | a + |r| <= i < |s|
      ensures IsJsWhitespace(s[i])
    {
      assert s[i] == t[i - a];
    }
  }

  /** A string trims to nothing exactly when it is all white space. */
  lemma TrimEmptyIffBlank(s: string)
    ensures Trim(s) == [] <==> forall i | 0 <= i < |s| :: IsJsWhitespace(s[i])
  {
    var t := TrimStart(s);
    if t != [] {
      assert t[0] == s[|s| - |t|];
      assert Trim(s) != [];
    }
  }

  /** `a * b >= b` for a positive factor: the step nonlinear proofs below lean on. */
  lemma {:induction false} MulAtLeast(a: int, b: nat)
    requires a >= 1
    ensures a * b >= b
  {
    if a > 1 {
      MulAtLeast(a - 1, b);
      assert a * b == (a - 1) * b + b;
    }
  }

  /** Index `row * cols + col` of a row-major grid decodes back to its row and column. */
  lemma {:induction false} RowColIndex(row: nat, col: nat, cols: nat)
    requires col < cols
    ensures (row * cols + col) / cols == row && (row * cols + col) % cols == col
  {
    var x := row * cols + col;
    var q, r := x / cols, x % cols;
    assert x == q * cols + r;
    if q > row {
      assert (q - row) * cols == col - r by {
        assert q * cols - row * cols == (q - row) * cols;
      }
      MulAtLeast(q - row, cols);
    } else if q < row {
      assert (row - q) * cols == r - col by {
        assert row * cols - q * cols == (row - q) * cols;
      }
      MulAtLeast(row - q, cols);
    }
  }

  /** A row below `rows` ends at or before the end of the grid. */
  lemma RowEndInGrid(row: nat, rows: nat, cols: nat)
    requires row < rows
    ensures row * cols + cols <= rows * cols
  {
    var d: nat := rows - row - 1;
    assert rows * cols == (row + 1 + d) * cols;
    assert (row + 1 + d) * cols == row * cols + cols + d * cols;
  }

  /** Euclidean division by a positive divisor splits `k` into quotient and remainder. */
  lemma DivMod(k: nat, cols: nat)
    requires cols > 0
    ensures k == (k / cols) * cols + k % cols && k % cols < cols
  {
  }

  /** An index inside a grid of `rows` rows lies in one of those rows. */
  lemma DivBelow(k: nat, rows: nat, cols: nat)
    requires cols > 0 && k < rows * cols
    ensures k / cols < rows
  {
    var q := k / cols;
    DivMod(k, cols);
    assert rows * cols - q * cols == (rows - q) * cols;
    assert (rows - q) * cols > 0;
  }
}
