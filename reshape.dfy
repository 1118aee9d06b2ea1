/** `reshape(arr, rows, cols)`: cut a flat array into `rows` rows of up to
    `cols` elements, in row-major order. Elements past `rows * cols` are
    dropped, and rows that start past the end of `arr` come out short or
    empty. `arr` is a value here, so it is only ever read. */
module Reshape {
  import opened Arith

  function Max0(x: int): nat { if x < 0 then 0 else x }

  /** An index into `arr`, clamped to `[0, |arr|]`. */
  function Clamp<T>(arr: seq<T>, x: int): (k: nat)
    ensures k <= |arr|
    ensures 0 <= x <= |arr| ==> k == x
  {
    if x < 0 then 0 else if x > |arr| then |arr| else x
  }

  /** The rows `reshape` returns, defined by slices: row `r` is the part of
      `arr[r * cols .. (r + 1) * cols]` that exists. */
  function Reshaped<T>(arr: seq<T>, rows: int, cols: int): (m: seq<seq<T>>)
    ensures |m| == Max0(rows)
  {
    var c := Max0(cols);
    seq(Max0(rows), r requires 0 <= r => arr[Clamp(arr, r * c) .. Clamp(arr, r * c + c)])
  }

  /** The rows laid end to end. */
  function Flatten<T>(m: seq<seq<T>>): seq<T>
  {
    if m == [] then [] else Flatten(m[..|m| - 1]) + m[|m| - 1]
  }

  /** Every row holds at most `cols` elements, and element `c` of row `r`
      is `arr[r * cols + c]`; a row is full exactly when its last index is
      inside `arr`, and a row that starts at or past the end is empty. */
  lemma ReshapedRow<T>(arr: seq<T>, rows: int, cols: int, r: int)
    requires 0 <= r < rows && 0 < cols
    ensures 0 <= r * cols
    ensures |Reshaped(arr, rows, cols)[r]| <= cols
    ensures |Reshaped(arr, rows, cols)[r]| == cols <==> (r + 1) * cols <= |arr|
    ensures r * cols >= |arr| ==> Reshaped(arr, rows, cols)[r] == []
    ensures forall c :: 0 <= c < |Reshaped(arr, rows, cols)[r]| ==>
      r * cols + c < |arr| && Reshaped(arr, rows, cols)[r][c] == arr[r * cols + c]
  {
    MulNonneg(r, cols);
    assert (r + 1) * cols == r * cols + cols;
  }

  /** With `cols <= 0` every row is empty. */
  lemma NoColumns<T>(arr: seq<T>, rows: int, cols: int, r: int)
    requires 0 <= r < rows && cols <= 0
    ensures Reshaped(arr, rows, cols)[r] == []
  {
  }

  /** One more row appends one more slice. */
  lemma ReshapedSnoc<T>(arr: seq<T>, rows: nat, cols: int)
    ensures Reshaped(arr, rows + 1, cols)[..rows] == Reshaped(arr, rows, cols)
  {
  }

  /** Laid end to end, the rows give back the first `rows * cols` elements
      of `arr` (all of it when it is that short): nothing is reordered or
      repeated, and only the tail past `rows * cols` is dropped. */
  lemma {:induction false} FlattenReshaped<T>(arr: seq<T>, rows: nat, cols: nat)
    ensures rows * cols >= 0
    ensures Flatten(Reshaped(arr, rows, cols)) == arr[..Clamp(arr, rows * cols)]
    decreases rows
  {
    MulNonneg(rows, cols);
    if rows > 0 {
      var m := Reshaped(arr, rows, cols);
      ReshapedSnoc(arr, rows - 1, cols);
      FlattenReshaped(arr, rows - 1, cols);
      MulNonneg(rows - 1, cols);
      assert rows * cols == (rows - 1) * cols + cols;
      var a, b := Clamp(arr, (rows - 1) * cols), Clamp(arr, rows * cols);
      assert m[rows - 1] == arr[a..b];
      assert arr[..a] + arr[a..b] == arr[..b];
    }
  }

  /** When `arr` has exactly `rows * cols` elements, every row is full and
      the reshape is undone by laying the rows end to end. */
  lemma ReshapeRoundTrip<T>(arr: seq<T>, rows: nat, cols: nat)
    requires |arr| == rows * cols
    ensures forall r :: 0 <= r < rows ==> |Reshaped(arr, rows, cols)[r]| == cols
    ensures Flatten(Reshaped(arr, rows, cols)) == arr
  {
    forall r | 0 <= r < rows
      ensures |Reshaped(arr, rows, cols)[r]| == cols
    {
      if cols > 0 {
        MulMonotone(r + 1, rows, cols);
        ReshapedRow(arr, rows, cols, r);
      }
    }
    FlattenReshaped(arr, rows, cols);
  }

  /** `reshape(arr, rows, cols)`: for each row, walk its `cols` indices
      `r * cols + c` and push the ones that are inside `arr`. */
  method Reshape<T>(arr: seq<T>, rows: int, cols: int) returns (newArr: seq<seq<T>>)
    ensures newArr == Reshaped(arr, rows, cols)
  {
    newArr := [];
    var r := 0;
    while r < rows
      invariant 0 <= r && (r <= rows || r == 0)
      invariant newArr == Reshaped(arr, r, cols)
    {
      var row := [];
      var start := r * Max0(cols);
      MulNonneg(r, Max0(cols));
      var c := 0;
      while c < cols
        invariant 0 <= c && (c <= cols || c == 0)
        invariant row == arr[Clamp(arr, start) .. Clamp(arr, start + c)]
      {
        var i := r * cols + c;
        if i < |arr| {
          row := row + [arr[i]];
        }
        c := c + 1;
      }
      assert row == Reshaped(arr, r + 1, cols)[r];
      ReshapedSnoc(arr, r, cols);
      newArr := newArr + [row];
      r := r + 1;
    }
  }
}
