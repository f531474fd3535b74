/**
 The line diff of the IDE: common edges are trimmed, the middle is aligned with a
 longest-common-subsequence table of 16-bit cells, and the rows are numbered.
 */
module LineDiff {
  import opened Text

  /** Above this many table cells the middle is replaced wholesale. */
  const MAX_CELLS := 180000

  /** A cell of a `Uint16Array`. */
  newtype uint16 = x: int | 0 <= x < 0x1_0000

  /** What storing `v` into a `Uint16Array` cell keeps of it. */
  function Stored(v: nat): uint16 {
    (v % 0x1_0000) as uint16
  }

  datatype Op<L> = Context(text: L) | Delete(text: L) | Add(text: L)

  datatype Row<L> = Row(op: Op<L>, oldLine: Option<nat>, newLine: Option<nat>)

  datatype Status = Added | Deleted | Modified | Clean

  datatype Diff = Diff(path: string, status: Status, additions: nat, deletions: nat, rows: seq<Row<string>>)

  // ------------------------------------------------------------ edit scripts

  /** The lines an edit script starts from. */
  function Before<L>(ops: seq<Op<L>>): seq<L> {
    if ops == [] then []
    else if ops[0].Add? then Before(ops[1..])
    else [ops[0].text] + Before(ops[1..])
  }

  /** The lines an edit script ends with. */
  function After<L>(ops: seq<Op<L>>): seq<L> {
    if ops == [] then []
    else if ops[0].Delete? then After(ops[1..])
    else [ops[0].text] + After(ops[1..])
  }

  function Additions<L>(ops: seq<Op<L>>): nat {
    if ops == [] then 0 else (if ops[0].Add? then 1 else 0) + Additions(ops[1..])
  }

  function Deletions<L>(ops: seq<Op<L>>): nat {
    if ops == [] then 0 else (if ops[0].Delete? then 1 else 0) + Deletions(ops[1..])
  }

  function Kept<L>(ops: seq<Op<L>>): nat {
    if ops == [] then 0 else (if ops[0].Context? then 1 else 0) + Kept(ops[1..])
  }

  function Cost<L>(ops: seq<Op<L>>): nat {
    Additions(ops) + Deletions(ops)
  }

  ghost predicate Edits<L>(ops: seq<Op<L>>, before: seq<L>, after: seq<L>) {
    Before(ops) == before && After(ops) == after
  }

  /** `ops` turns `before` into `after` with as few additions and deletions as any script. */
  ghost predicate Minimal<L(!new)>(ops: seq<Op<L>>, before: seq<L>, after: seq<L>) {
    && Edits(ops, before, after)
    && forall other :: Edits(other, before, after) ==> Cost(ops) <= Cost(other)
  }

  lemma {:induction false} ConcatSides<L>(x: seq<Op<L>>, y: seq<Op<L>>)
    ensures Before(x + y) == Before(x) + Before(y)
    ensures After(x + y) == After(x) + After(y)
  {
    if x == [] {
      assert x + y == y;
    } else {
      ConcatSides(x[1..], y);
      assert (x + y)[0] == x[0] && (x + y)[1..] == x[1..] + y;
      Associative([x[0].text], Before(x[1..]), Before(y));
      Associative([x[0].text], After(x[1..]), After(y));
    }
  }

  lemma {:induction false} ConcatCounts<L>(x: seq<Op<L>>, y: seq<Op<L>>)
    ensures Additions(x + y) == Additions(x) + Additions(y)
    ensures Deletions(x + y) == Deletions(x) + Deletions(y)
    ensures Kept(x + y) == Kept(x) + Kept(y)
  {
    if x == [] {
      assert x + y == y;
    } else {
      ConcatCounts(x[1..], y);
      assert (x + y)[0] == x[0] && (x + y)[1..] == x[1..] + y;
    }
  }

  lemma Concat<L>(x: seq<Op<L>>, y: seq<Op<L>>)
    ensures Before(x + y) == Before(x) + Before(y)
    ensures After(x + y) == After(x) + After(y)
    ensures Additions(x + y) == Additions(x) + Additions(y)
    ensures Deletions(x + y) == Deletions(x) + Deletions(y)
    ensures Kept(x + y) == Kept(x) + Kept(y)
  {
    ConcatSides(x, y);
    ConcatCounts(x, y);
  }

  /** Every line of either side is kept once or paid for once. */
  lemma {:induction false} Balance<L>(ops: seq<Op<L>>)
    ensures |Before(ops)| == Kept(ops) + Deletions(ops)
    ensures |After(ops)| == Kept(ops) + Additions(ops)
  {
    if ops != [] {
      Balance(ops[1..]);
    }
  }

  function Contexts<L>(lines: seq<L>): seq<Op<L>> {
    seq(|lines|, i requires 0 <= i < |lines| => Context(lines[i]))
  }

  function Deletes<L>(lines: seq<L>): seq<Op<L>> {
    seq(|lines|, i requires 0 <= i < |lines| => Delete(lines[i]))
  }

  function Adds<L>(lines: seq<L>): seq<Op<L>> {
    seq(|lines|, i requires 0 <= i < |lines| => Add(lines[i]))
  }

  lemma {:induction false} Uniform<L>(lines: seq<L>)
    ensures Edits(Contexts(lines), lines, lines) && Cost(Contexts(lines)) == 0
    ensures Edits(Deletes(lines), lines, []) && Deletions(Deletes(lines)) == |lines| && Kept(Deletes(lines)) == 0
    ensures Edits(Adds(lines), [], lines) && Additions(Adds(lines)) == |lines| && Kept(Adds(lines)) == 0
  {
    if lines != [] {
      Uniform(lines[1..]);
      assert Contexts(lines)[1..] == Contexts(lines[1..]);
      assert Deletes(lines)[1..] == Deletes(lines[1..]);
      assert Adds(lines)[1..] == Adds(lines[1..]);
      assert [lines[0]] + lines[1..] == lines;
    }
    Balance(Contexts(lines));
    Balance(Deletes(lines));
    Balance(Adds(lines));
  }

  // ------------------------------------------ longest common subsequence

  function Max(x: nat, y: nat): nat {
    if x >= y then x else y
  }

  /** The table recurrence, as a function of the two suffixes. */
  ghost function Lcs<L>(a: seq<L>, b: seq<L>): nat
    decreases |a| + |b|
  {
    if a == [] || b == [] then 0
    else if a[0] == b[0] then Lcs(a[1..], b[1..]) + 1
    else Max(Lcs(a[1..], b), Lcs(a, b[1..]))
  }

  lemma {:induction false} LcsBound<L>(a: seq<L>, b: seq<L>)
    ensures Lcs(a, b) <= |a| && Lcs(a, b) <= |b|
    decreases |a| + |b|
  {
    if a != [] && b != [] {
      if a[0] == b[0] {
        LcsBound(a[1..], b[1..]);
      } else {
        LcsBound(a[1..], b);
        LcsBound(a, b[1..]);
      }
    }
  }

  /** Dropping the first line of one side loses at most one common line. */
  lemma {:induction false} LcsDrop<L>(a: seq<L>, b: seq<L>)
    ensures a != [] ==> Lcs(a[1..], b) <= Lcs(a, b) <= Lcs(a[1..], b) + 1
    ensures b != [] ==> Lcs(a, b[1..]) <= Lcs(a, b) <= Lcs(a, b[1..]) + 1
    decreases |a| + |b|
  {
    if a != [] && b != [] {
      LcsDrop(a[1..], b);
      LcsDrop(a, b[1..]);
      LcsDrop(a[1..], b[1..]);
    }
  }

  /** No edit script keeps more lines than the table promises. */
  lemma {:induction false} KeptAtMostLcs<L>(ops: seq<Op<L>>)
    ensures Kept(ops) <= Lcs(Before(ops), After(ops))
  {
    if ops != [] {
      KeptAtMostLcs(ops[1..]);
      var a, b := Before(ops), After(ops);
      match ops[0] {
        case Context(_) =>
          assert a[1..] == Before(ops[1..]) && b[1..] == After(ops[1..]);
        case Delete(_) =>
          assert a[1..] == Before(ops[1..]) && b == After(ops[1..]);
          LcsDrop(a, b);
        case Add(_) =>
          assert a == Before(ops[1..]) && b[1..] == After(ops[1..]);
          LcsDrop(a, b);
      }
    }
  }

  /** The table recurrence over indices, the way the cells are filled. */
  ghost function Cell<L>(a: seq<L>, b: seq<L>, i: nat, j: nat): nat
    requires i <= |a| && j <= |b|
    decreases |a| - i + |b| - j
  {
    if i == |a| || j == |b| then 0
    else if a[i] == b[j] then Cell(a, b, i + 1, j + 1) + 1
    else Max(Cell(a, b, i + 1, j), Cell(a, b, i, j + 1))
  }

  /** The table holds the longest common subsequences of the suffixes. */
  lemma {:induction false} CellIsLcs<L>(a: seq<L>, b: seq<L>, i: nat, j: nat)
    requires i <= |a| && j <= |b|
    ensures Cell(a, b, i, j) == Lcs(a[i..], b[j..])
    decreases |a| - i + |b| - j
  {
    if i < |a| && j < |b| {
      assert a[i..][1..] == a[i + 1..] && b[j..][1..] == b[j + 1..];
      CellIsLcs(a, b, i + 1, j + 1);
      CellIsLcs(a, b, i + 1, j);
      CellIsLcs(a, b, i, j + 1);
    }
  }

  /** The greedy walk, as a function: the script it emits from `(i, j)` on. */
  ghost function Walk<L>(a: seq<L>, b: seq<L>, i: nat, j: nat): seq<Op<L>>
    requires i <= |a| && j <= |b|
    decreases |a| - i + |b| - j
  {
    if i == |a| then Adds(b[j..])
    else if j == |b| then Deletes(a[i..])
    else if a[i] == b[j] then [Context(a[i])] + Walk(a, b, i + 1, j + 1)
    else if Cell(a, b, i + 1, j) >= Cell(a, b, i, j + 1) then [Delete(a[i])] + Walk(a, b, i + 1, j)
    else [Add(b[j])] + Walk(a, b, i, j + 1)
  }

  lemma WalkUnfolds<L>(a: seq<L>, b: seq<L>, i: nat, j: nat)
    requires i < |a| && j < |b|
    ensures Walk(a, b, i, j)
            == if a[i] == b[j] then [Context(a[i])] + Walk(a, b, i + 1, j + 1)
               else if Cell(a, b, i + 1, j) >= Cell(a, b, i, j + 1) then [Delete(a[i])] + Walk(a, b, i + 1, j)
               else [Add(b[j])] + Walk(a, b, i, j + 1)
  {
    hide Cell;
  }

  lemma Prepended<L>(op: Op<L>, rest: seq<Op<L>>)
    ensures Before([op] + rest) == (if op.Add? then [] else [op.text]) + Before(rest)
    ensures After([op] + rest) == (if op.Delete? then [] else [op.text]) + After(rest)
    ensures Kept([op] + rest) == (if op.Context? then 1 else 0) + Kept(rest)
  {
    assert ([op] + rest)[0] == op && ([op] + rest)[1..] == rest;
    assert [] + Before(rest) == Before(rest) && [] + After(rest) == After(rest);
  }

  lemma CellUnfolds<L>(a: seq<L>, b: seq<L>, i: nat, j: nat)
    requires i < |a| && j < |b|
    ensures Cell(a, b, i, j) == if a[i] == b[j] then 1 + Cell(a, b, i + 1, j + 1)
                                else if Cell(a, b, i + 1, j) >= Cell(a, b, i, j + 1) then Cell(a, b, i + 1, j)
                                else Cell(a, b, i, j + 1)
  {
  }

  lemma WalkRunsOut<L>(a: seq<L>, b: seq<L>, i: nat, j: nat)
    requires i <= |a| && j <= |b| && (i == |a| || j == |b|)
    ensures Edits(Walk(a, b, i, j), a[i..], b[j..]) && Kept(Walk(a, b, i, j)) == Cell(a, b, i, j) == 0
  {
    Uniform(b[j..]);
    Uniform(a[i..]);
    hide Before, After, Kept, Adds, Deletes;
  }

  /** The greedy walk realises the table: it keeps a longest common subsequence. */
  lemma {:induction false} WalkKeepsLcs<L>(a: seq<L>, b: seq<L>, i: nat, j: nat)
    requires i <= |a| && j <= |b|
    ensures Edits(Walk(a, b, i, j), a[i..], b[j..])
    ensures Kept(Walk(a, b, i, j)) == Cell(a, b, i, j)
    decreases |a| - i + |b| - j
  {
    hide Walk, Before, After, Kept, Cell;
    if i == |a| || j == |b| {
      WalkRunsOut(a, b, i, j);
    } else {
      WalkUnfolds(a, b, i, j);
      CellUnfolds(a, b, i, j);
      assert [a[i]] + a[i + 1..] == a[i..] && [b[j]] + b[j + 1..] == b[j..];
      if a[i] == b[j] {
        WalkKeepsLcs(a, b, i + 1, j + 1);
        Prepended(Context(a[i]), Walk(a, b, i + 1, j + 1));
      } else if Cell(a, b, i + 1, j) >= Cell(a, b, i, j + 1) {
        WalkKeepsLcs(a, b, i + 1, j);
        Prepended(Delete(a[i]), Walk(a, b, i + 1, j));
      } else {
        WalkKeepsLcs(a, b, i, j + 1);
        Prepended(Add(b[j]), Walk(a, b, i, j + 1));
      }
    }
  }

  /** A script is minimal exactly when it keeps a longest common subsequence. */
  lemma MinimalIffKeepsLcs<L(!new)>(a: seq<L>, b: seq<L>, ops: seq<Op<L>>)
    requires Edits(ops, a, b)
    ensures Minimal(ops, a, b) <==> Kept(ops) == Lcs(a, b)
  {
    var best := Walk(a, b, 0, 0);
    WalkKeepsLcs(a, b, 0, 0);
    CellIsLcs(a, b, 0, 0);
    assert a[0..] == a && b[0..] == b;
    Balance(ops);
    Balance(best);
    KeptAtMostLcs(ops);
    forall other | Edits(other, a, b)
      ensures Kept(ops) == Lcs(a, b) ==> Cost(ops) <= Cost(other)
    {
      Balance(other);
      KeptAtMostLcs(other);
    }
  }

  // ------------------------------------------------------- trimming edges

  lemma {:induction false} LcsPrefix<L>(p: seq<L>, a: seq<L>, b: seq<L>)
    ensures Lcs(p + a, p + b) == |p| + Lcs(a, b)
  {
    if p == [] {
      assert p + a == a && p + b == b;
    } else {
      LcsPrefix(p[1..], a, b);
      assert (p + a)[1..] == p[1..] + a && (p + b)[1..] == p[1..] + b;
    }
  }

  lemma {:induction false} LcsLastLine<L>(a: seq<L>, b: seq<L>, x: L)
    ensures Lcs(a + [x], b + [x]) == Lcs(a, b) + 1
    decreases |a| + |b|
  {
    var ax, bx := a + [x], b + [x];
    if a == [] {
      LcsBound(ax, bx);
      LastLineKept(b, x);
      assert ax == [x];
    } else if b == [] {
      LcsBound(ax, bx);
      LastLineKept(a, x);
      LcsSymmetric(ax, bx);
      assert bx == [x];
    } else {
      assert ax[1..] == a[1..] + [x] && bx[1..] == b[1..] + [x];
      if a[0] == b[0] {
        LcsLastLine(a[1..], b[1..], x);
      } else {
        LcsLastLine(a[1..], b, x);
        LcsLastLine(a, b[1..], x);
      }
    }
  }

  lemma {:induction false} LastLineKept<L>(b: seq<L>, x: L)
    ensures Lcs([x], b + [x]) >= 1
  {
    if b != [] {
      LastLineKept(b[1..], x);
      assert (b + [x])[1..] == b[1..] + [x];
    }
  }

  lemma {:induction false} LcsSymmetric<L>(a: seq<L>, b: seq<L>)
    ensures Lcs(a, b) == Lcs(b, a)
    decreases |a| + |b|
  {
    if a != [] && b != [] {
      LcsSymmetric(a[1..], b[1..]);
      LcsSymmetric(a[1..], b);
      LcsSymmetric(a, b[1..]);
    }
  }

  lemma {:induction false} LcsSuffix<L>(a: seq<L>, b: seq<L>, s: seq<L>)
    ensures Lcs(a + s, b + s) == Lcs(a, b) + |s|
  {
    if s == [] {
      assert a + s == a && b + s == b;
    } else {
      var n := |s| - 1;
      LcsSuffix(a, b, s[..n]);
      LcsLastLine(a + s[..n], b + s[..n], s[n]);
      assert s == s[..n] + [s[n]];
      assert a + s == a + s[..n] + [s[n]];
      assert b + s == b + s[..n] + [s[n]];
    }
  }

  /** Trimming common edges keeps optimality, in both directions. */
  lemma TrimmingKeepsMinimality<L(!new)>(p: seq<L>, a: seq<L>, b: seq<L>, s: seq<L>, ops: seq<Op<L>>)
    requires Edits(ops, a, b)
    ensures Edits(Contexts(p) + ops + Contexts(s), p + a + s, p + b + s)
    ensures Cost(Contexts(p) + ops + Contexts(s)) == Cost(ops)
    ensures Minimal(Contexts(p) + ops + Contexts(s), p + a + s, p + b + s) <==> Minimal(ops, a, b)
  {
    var all := Contexts(p) + ops + Contexts(s);
    Uniform(p);
    Uniform(s);
    Concat(Contexts(p), ops);
    Concat(Contexts(p) + ops, Contexts(s));
    Balance(Contexts(p));
    Balance(Contexts(s));
    LcsPrefix(p, a, b);
    LcsSuffix(p + a, p + b, s);
    MinimalIffKeepsLcs(a, b, ops);
    MinimalIffKeepsLcs(p + a + s, p + b + s, all);
  }

  /** `prefix` and `suffix` are the longest common edges that do not overlap, the prefix taken first. */
  ghost predicate IsEdges<L>(a: seq<L>, b: seq<L>, prefix: nat, suffix: nat) {
    && prefix + suffix <= |a| && prefix + suffix <= |b|
    && a[..prefix] == b[..prefix]
    && a[|a| - suffix..] == b[|b| - suffix..]
    && (prefix == |a| || prefix == |b| || a[prefix] != b[prefix])
    && (prefix + suffix == |a| || prefix + suffix == |b| || a[|a| - 1 - suffix] != b[|b| - 1 - suffix])
  }

  method TrimCommonEdges<L(==)>(before: seq<L>, after: seq<L>) returns (prefix: nat, suffix: nat)
    ensures IsEdges(before, after, prefix, suffix)
  {
    prefix := 0;
    while prefix < |before| && prefix < |after| && before[prefix] == after[prefix]
      invariant prefix <= |before| && prefix <= |after|
      invariant before[..prefix] == after[..prefix]
    {
      assert before[..prefix + 1] == before[..prefix] + [before[prefix]];
      assert after[..prefix + 1] == after[..prefix] + [after[prefix]];
      prefix := prefix + 1;
    }
    suffix := 0;
    assert before[|before|..] == after[|after|..];
    while suffix < |before| - prefix && suffix < |after| - prefix
          && before[|before| - 1 - suffix] == after[|after| - 1 - suffix]
      invariant prefix + suffix <= |before| && prefix + suffix <= |after|
      invariant before[|before| - suffix..] == after[|after| - suffix..]
    {
      ghost var m, n := |before| - suffix - 1, |after| - suffix - 1;
      assert before[m..] == [before[m]] + before[m + 1..] && after[n..] == [after[n]] + after[n + 1..];
      suffix := suffix + 1;
    }
  }

  // ---------------------------------------------------------- the table

  /** Under the cap no cell can reach the limit of 16 bits: every cell is at most 424. */
  lemma CellsFit<L>(a: seq<L>, b: seq<L>, i: nat, j: nat)
    requires |a| * |b| <= MAX_CELLS
    requires i <= |a| && j <= |b|
    ensures Cell(a, b, i, j) <= 424
    ensures Stored(Cell(a, b, i, j)) as int == Cell(a, b, i, j)
  {
    CellIsLcs(a, b, i, j);
    LcsBound(a[i..], b[j..]);
    if |a| > 424 && |b| > 424 {
      ProductAtLeast(|a|, |b|);
    }
  }

  lemma ProductAtLeast(x: nat, y: nat)
    requires x >= 425 && y >= 425
    ensures x * y >= 425 * 425
  {
    assert x * y >= 425 * y;
  }

  /** Row `k` of the table holds the cells of row `k`. */
  ghost predicate RowHolds<L>(table: array2<uint16>, a: seq<L>, b: seq<L>, k: nat)
    requires table.Length0 == |a| + 1 && table.Length1 == |b| + 1
    reads table
  {
    k <= |a| && forall l :: 0 <= l <= |b| ==> table[k, l] as int == Cell(a, b, k, l)
  }

  /** Fill one row from right to left; no store wraps around. */
  method FillRow<L(==)>(before: seq<L>, after: seq<L>, table: array2<uint16>, i: nat)
    requires |before| * |after| <= MAX_CELLS
    requires table.Length0 == |before| + 1 && table.Length1 == |after| + 1
    requires i < |before| && RowHolds(table, before, after, i + 1)
    requires table[i, |after|] == 0
    modifies table
    ensures RowHolds(table, before, after, i)
    ensures forall k, l :: 0 <= k <= |before| && 0 <= l <= |after| && k != i ==> table[k, l] == old(table[k, l])
    ensures forall k :: k != i && old(RowHolds(table, before, after, k)) ==> RowHolds(table, before, after, k)
  {
    var j := |after|;
    while j > 0
      invariant 0 <= j <= |after|
      invariant RowHolds(table, before, after, i + 1)
      invariant forall l :: j <= l <= |after| ==> table[i, l] as int == Cell(before, after, i, l)
      invariant forall k, l :: 0 <= k <= |before| && 0 <= l <= |after| && k != i ==> table[k, l] == old(table[k, l])
    {
      j := j - 1;
      CellsFit(before, after, i, j);
      var value := if before[i] == after[j] then table[i + 1, j + 1] as nat + 1
                   else Max(table[i + 1, j] as nat, table[i, j + 1] as nat);
      table[i, j] := Stored(value);
    }
  }

  /** Fill a zeroed 16-bit table from the bottom row up. */
  method FillTable<L(==)>(before: seq<L>, after: seq<L>) returns (table: array2<uint16>)
    requires |before| * |after| <= MAX_CELLS
    ensures fresh(table)
    ensures table.Length0 == |before| + 1 && table.Length1 == |after| + 1
    ensures forall k :: 0 <= k <= |before| ==> RowHolds(table, before, after, k)
  {
    table := new uint16[|before| + 1, |after| + 1]((_, _) => 0);
    var i := |before|;
    while i > 0
      invariant 0 <= i <= |before|
      invariant forall k :: i <= k <= |before| ==> RowHolds(table, before, after, k)
      invariant forall k :: 0 <= k < i ==> table[k, |after|] == 0
    {
      i := i - 1;
      FillRow(before, after, table, i);
    }
  }

  /** Walk the filled table from the top left, then emit whatever one side has left. */
  method WalkTable<L(==)>(before: seq<L>, after: seq<L>, table: array2<uint16>) returns (ops: seq<Op<L>>)
    requires table.Length0 == |before| + 1 && table.Length1 == |after| + 1
    requires forall k :: 0 <= k <= |before| ==> RowHolds(table, before, after, k)
    ensures ops == Walk(before, after, 0, 0)
  {
    hide Cell, Walk, Adds, Deletes;
    ops := [];
    var i, j := 0, 0;
    while i < |before| && j < |after|
      invariant 0 <= i <= |before| && 0 <= j <= |after|
      invariant ops + Walk(before, after, i, j) == Walk(before, after, 0, 0)
      decreases |before| - i + |after| - j
    {
      assert RowHolds(table, before, after, i) && RowHolds(table, before, after, i + 1);
      WalkUnfolds(before, after, i, j);
      if before[i] == after[j] {
        Associative(ops, [Context(before[i])], Walk(before, after, i + 1, j + 1));
        ops := ops + [Context(before[i])];
        i, j := i + 1, j + 1;
      } else if table[i + 1, j] >= table[i, j + 1] {
        Associative(ops, [Delete(before[i])], Walk(before, after, i + 1, j));
        ops := ops + [Delete(before[i])];
        i := i + 1;
      } else {
        Associative(ops, [Add(after[j])], Walk(before, after, i, j + 1));
        ops := ops + [Add(after[j])];
        j := j + 1;
      }
    }
    while i < |before|
      invariant i <= |before| && j <= |after| && (i < |before| ==> j == |after|)
      invariant ops + Walk(before, after, i, j) == Walk(before, after, 0, 0)
    {
      DeletesStep(before, i);
      WalkAtEdge(before, after, i, j);
      Associative(ops, [Delete(before[i])], Deletes(before[i + 1..]));
      WalkAtEdge(before, after, i + 1, j);
      ops := ops + [Delete(before[i])];
      i := i + 1;
    }
    while j < |after|
      invariant j <= |after|
      invariant ops + Walk(before, after, i, j) == Walk(before, after, 0, 0)
    {
      AddsStep(after, j);
      WalkAtEnd(before, after, j);
      WalkAtEnd(before, after, j + 1);
      Associative(ops, [Add(after[j])], Adds(after[j + 1..]));
      ops := ops + [Add(after[j])];
      j := j + 1;
    }
    WalkAtEnd(before, after, |after|);
    NothingToAdd(after);
    assert ops + [] == ops;
  }

  lemma NothingToAdd<L>(after: seq<L>)
    ensures Adds(after[|after|..]) == []
  {
  }

  lemma DeletesStep<L>(lines: seq<L>, i: nat)
    requires i < |lines|
    ensures Deletes(lines[i..]) == [Delete(lines[i])] + Deletes(lines[i + 1..])
  {
  }

  lemma AddsStep<L>(lines: seq<L>, j: nat)
    requires j < |lines|
    ensures Adds(lines[j..]) == [Add(lines[j])] + Adds(lines[j + 1..])
  {
  }

  lemma WalkAtEnd<L>(a: seq<L>, b: seq<L>, j: nat)
    requires j <= |b|
    ensures Walk(a, b, |a|, j) == Adds(b[j..])
  {
  }

  lemma WalkAtEdge<L>(a: seq<L>, b: seq<L>, i: nat, j: nat)
    requires i <= |a| && j == |b|
    ensures Walk(a, b, i, j) == Deletes(a[i..])
  {
  }

  /** Align the two middles: minimal up to the cap, wholesale replacement above it. */
  method LcsOps<L(==,!new)>(before: seq<L>, after: seq<L>) returns (ops: seq<Op<L>>)
    ensures Edits(ops, before, after)
    ensures |before| * |after| <= MAX_CELLS ==> Minimal(ops, before, after)
    ensures |before| * |after| > MAX_CELLS ==> ops == Deletes(before) + Adds(after)
  {
    hide Before, After, Kept, Lcs, Minimal, Walk, Cell;
    if |before| * |after| > MAX_CELLS {
      Uniform(before);
      Uniform(after);
      Concat(Deletes(before), Adds(after));
      return Deletes(before) + Adds(after);
    }
    var table := FillTable(before, after);
    ops := WalkTable(before, after, table);
    WalkKeepsLcs(before, after, 0, 0);
    CellIsLcs(before, after, 0, 0);
    assert before[0..] == before && after[0..] == after;
    MinimalIffKeepsLcs(before, after, ops);
  }

  // ---------------------------------------------------------- splitting

  /** `replace(/\r\n/g, "\n")`: one left-to-right pass. */
  function Normalized(s: string): string {
    if |s| < 2 then s
    else if s[0] == '\r' && s[1] == '\n' then ['\n'] + Normalized(s[2..])
    else [s[0]] + Normalized(s[1..])
  }

  function SplitLines(value: string): seq<string> {
    var normalized := Normalized(value);
    if normalized == "" then [] else Split(normalized, '\n')
  }

  /** The lines determine the normalised text and no line holds a line feed. */
  lemma LinesSpellText(value: string)
    ensures Join(SplitLines(value), '\n') == Normalized(value)
    ensures forall i :: 0 <= i < |SplitLines(value)| ==> '\n' !in SplitLines(value)[i]
  {
    JoinOfSplit(Normalized(value), '\n');
    SplitParts(Normalized(value), '\n');
  }

  lemma SameLinesIffSameText(x: string, y: string)
    ensures SplitLines(x) == SplitLines(y) <==> Normalized(x) == Normalized(y)
  {
    LinesSpellText(x);
    LinesSpellText(y);
  }

  // ---------------------------------------------------------- the diff

  function Ops<L>(rows: seq<Row<L>>): seq<Op<L>> {
    seq(|rows|, i requires 0 <= i < |rows| => rows[i].op)
  }

  function OldLines<L>(rows: seq<Row<L>>): seq<nat> {
    if rows == [] then []
    else if rows[0].oldLine.None? then OldLines(rows[1..])
    else [rows[0].oldLine.value] + OldLines(rows[1..])
  }

  function NewLines<L>(rows: seq<Row<L>>): seq<nat> {
    if rows == [] then []
    else if rows[0].newLine.None? then NewLines(rows[1..])
    else [rows[0].newLine.value] + NewLines(rows[1..])
  }

  function OneTo(n: nat): seq<nat> {
    seq(n, i => i + 1)
  }

  lemma {:induction false} LinesConcat<L>(x: seq<Row<L>>, y: seq<Row<L>>)
    ensures OldLines(x + y) == OldLines(x) + OldLines(y)
    ensures NewLines(x + y) == NewLines(x) + NewLines(y)
  {
    if x == [] {
      assert x + y == y;
    } else {
      LinesConcat(x[1..], y);
      assert (x + y)[0] == x[0] && (x + y)[1..] == x[1..] + y;
      if x[0].oldLine.Some? {
        Associative([x[0].oldLine.value], OldLines(x[1..]), OldLines(y));
      }
      if x[0].newLine.Some? {
        Associative([x[0].newLine.value], NewLines(x[1..]), NewLines(y));
      }
    }
  }

  /** The lines of each side: none when that side does not exist. */
  function SideLines(text: string, exists_: bool): seq<string> {
    if exists_ then SplitLines(text) else []
  }

  /** A row carries a line number on exactly the sides its line is on. */
  ghost predicate Numbered<L>(row: Row<L>) {
    (row.oldLine.Some? <==> !row.op.Add?) && (row.newLine.Some? <==> !row.op.Delete?)
  }

  lemma SingleOp<L>(op: Op<L>)
    ensures |Before([op])| == (if op.Add? then 0 else 1) && |After([op])| == (if op.Delete? then 0 else 1)
    ensures Additions([op]) == (if op.Add? then 1 else 0) && Deletions([op]) == (if op.Delete? then 1 else 0)
  {
  }

  lemma SingleRow<L>(row: Row<L>)
    ensures OldLines([row]) == if row.oldLine.Some? then [row.oldLine.value] else []
    ensures NewLines([row]) == if row.newLine.Some? then [row.newLine.value] else []
  {
  }

  lemma EmptyLists<L>()
    ensures Before<L>([]) == [] && After<L>([]) == [] && Additions<L>([]) == 0 && Deletions<L>([]) == 0
    ensures OldLines<L>([]) == [] && NewLines<L>([]) == [] && OneTo(0) == []
  {
  }

  lemma OneToNext(n: nat)
    ensures OneTo(n + 1) == OneTo(n) + [n + 1] && OneTo(n) + [] == OneTo(n) && OneTo(0) == []
  {
  }

  /** Number the rows; line numbers count up without gaps on each side. */
  method NumberRows<L>(ops: seq<Op<L>>) returns (rows: seq<Row<L>>, additions: nat, deletions: nat)
    ensures Ops(rows) == ops
    ensures forall i :: 0 <= i < |rows| ==> Numbered(rows[i])
    ensures OldLines(rows) == OneTo(|Before(ops)|) && NewLines(rows) == OneTo(|After(ops)|)
    ensures additions == Additions(ops) && deletions == Deletions(ops)
  {
    hide Before, After, Additions, Deletions, OldLines, NewLines, OneTo;
    var oldLine, newLine := 1, 1;
    EmptyLists<L>();
    additions, deletions, rows := 0, 0, [];
    for k := 0 to |ops|
      invariant Ops(rows) == ops[..k]
      invariant forall i :: 0 <= i < |rows| ==> Numbered(rows[i])
      invariant oldLine == |Before(ops[..k])| + 1 && newLine == |After(ops[..k])| + 1
      invariant OldLines(rows) == OneTo(oldLine - 1) && NewLines(rows) == OneTo(newLine - 1)
      invariant additions == Additions(ops[..k]) && deletions == Deletions(ops[..k])
    {
      Concat(ops[..k], [ops[k]]);
      SingleOp(ops[k]);
      OneToNext(oldLine - 1);
      OneToNext(newLine - 1);
      assert ops[..k + 1] == ops[..k] + [ops[k]];
      var row;
      match ops[k] {
        case Context(_) =>
          row := Row(ops[k], Some(oldLine), Some(newLine));
          oldLine, newLine := oldLine + 1, newLine + 1;
        case Delete(_) =>
          row := Row(ops[k], Some(oldLine), None);
          oldLine, deletions := oldLine + 1, deletions + 1;
        case Add(_) =>
          row := Row(ops[k], None, Some(newLine));
          newLine, additions := newLine + 1, additions + 1;
      }
      LinesConcat(rows, [row]);
      SingleRow(row);
      rows := rows + [row];
    }
    assert ops[..|ops|] == ops;
  }

  /** What lies between the edges. */
  function Middle<L>(lines: seq<L>, prefix: nat, suffix: nat): seq<L>
    requires prefix + suffix <= |lines|
  {
    lines[prefix..|lines| - suffix]
  }

  ghost predicate NothingToKeep<L>(a: seq<L>, b: seq<L>) {
    forall x :: x in a ==> x !in b
  }

  /** The middle as `LcsOps` returns it, put back between the edges. */
  lemma AssembledOps<L(!new)>(a: seq<L>, b: seq<L>, prefix: nat, suffix: nat, middleOps: seq<Op<L>>, ops: seq<Op<L>>)
    requires IsEdges(a, b, prefix, suffix)
    requires var ma, mb := Middle(a, prefix, suffix), Middle(b, prefix, suffix);
             && Edits(middleOps, ma, mb)
             && (|ma| * |mb| <= MAX_CELLS ==> Minimal(middleOps, ma, mb))
             && (|ma| * |mb| > MAX_CELLS ==> middleOps == Deletes(ma) + Adds(mb))
    requires ops == Contexts(a[..prefix]) + middleOps + Contexts(a[|a| - suffix..])
    ensures Edits(ops, a, b)
    ensures Additions(ops) - Deletions(ops) == |b| - |a|
    ensures Cost(ops) == 0 <==> a == b
    ensures var ma, mb := Middle(a, prefix, suffix), Middle(b, prefix, suffix);
            Minimal(ops, a, b) <==> |ma| * |mb| <= MAX_CELLS || NothingToKeep(ma, mb)
  {
    hide Before, After, Minimal;
    var ma, mb := Middle(a, prefix, suffix), Middle(b, prefix, suffix);
    var p, s := a[..prefix], a[|a| - suffix..];
    assert a == p + ma + s && b == p + mb + s;
    TrimmingKeepsMinimality(p, ma, mb, s, middleOps);
    WholesaleMinimal(ma, mb);
    Balance(ops);
    Balance(middleOps);
    FreeIffEqual(ops);
    if a == b {
      assert prefix == |a| && ma == [] && mb == [];
    }
  }

  /** The numbers `BuildDiff` promises for its rows. */
  ghost predicate WellNumbered<L>(rows: seq<Row<L>>, oldCount: nat, newCount: nat) {
    && (forall i :: 0 <= i < |rows| ==> Numbered(rows[i]))
    && OldLines(rows) == OneTo(oldCount)
    && NewLines(rows) == OneTo(newCount)
  }

  /** `ops` is as cheap as any edit script, exactly when the caller can see it must be. */
  ghost predicate MinimalWhenSmall<L(!new)>(ops: seq<Op<L>>, a: seq<L>, b: seq<L>) {
    forall prefix, suffix | IsEdges(a, b, prefix, suffix) ::
      var ma, mb := Middle(a, prefix, suffix), Middle(b, prefix, suffix);
      Minimal(ops, a, b) <==> |ma| * |mb| <= MAX_CELLS || NothingToKeep(ma, mb)
  }

  /** Trim, align the middles and put the edges back. */
  method DiffOps<L(==,!new)>(a: seq<L>, b: seq<L>) returns (ops: seq<Op<L>>)
    ensures Edits(ops, a, b)
    ensures Additions(ops) - Deletions(ops) == |b| - |a|
    ensures Cost(ops) == 0 <==> a == b
    ensures MinimalWhenSmall(ops, a, b)
  {
    var prefix, suffix := TrimCommonEdges(a, b);
    var middleOps := LcsOps(a[prefix..|a| - suffix], b[prefix..|b| - suffix]);
    ops := Contexts(a[..prefix]) + middleOps + Contexts(a[|a| - suffix..]);
    AssembledOps(a, b, prefix, suffix, middleOps, ops);
    forall p, s | IsEdges(a, b, p, s)
      ensures p == prefix && s == suffix
    {
      EdgesUnique(a, b, p, s, prefix, suffix);
    }
  }

  /**
   The whole diff. For all texts, of any size: the rows spell both sides, the line
   numbers have no gaps, and an existing pair is clean exactly when the normalised
   texts agree. Up to the cap no edit script is cheaper; above it the script is
   minimal exactly when the trimmed middles share no line.
   */
  method BuildDiff(path: string, before: string, after: string, beforeExists: bool, afterExists: bool)
    returns (diff: Diff)
    ensures diff.path == path
    ensures var a, b := SideLines(before, beforeExists), SideLines(after, afterExists);
            && Edits(Ops(diff.rows), a, b)
            && WellNumbered(diff.rows, |a|, |b|)
            && MinimalWhenSmall(Ops(diff.rows), a, b)
            && diff.additions - diff.deletions == |b| - |a|
    ensures diff.additions == Additions(Ops(diff.rows)) && diff.deletions == Deletions(Ops(diff.rows))
    ensures diff.status.Added? <==> !beforeExists && afterExists
    ensures diff.status.Deleted? <==> beforeExists && !afterExists
    ensures beforeExists && afterExists ==> (diff.status.Clean? <==> Normalized(before) == Normalized(after))
    ensures !beforeExists && !afterExists ==> diff.status.Clean?
  {
    var beforeLines, afterLines := SideLines(before, beforeExists), SideLines(after, afterExists);
    var ops := DiffOps(beforeLines, afterLines);
    var rows, additions, deletions := NumberRows(ops);
    var status := if !beforeExists && afterExists then Added
                  else if beforeExists && !afterExists then Deleted
                  else if additions != 0 || deletions != 0 then Modified else Clean;
    diff := Diff(path, status, additions, deletions, rows);
    SameLinesIffSameText(before, after);
  }

  /** 425 lines, all alike but the one in the middle. */
  function Around(line: string): seq<string> {
    seq(425, i => if i == 212 then "same" else line)
  }

  lemma {:induction false} NormalizedPlain(s: string)
    requires '\r' !in s
    ensures Normalized(s) == s
    decreases |s|
  {
    if |s| >= 2 {
      NormalizedPlain(s[1..]);
      assert s[0] in s;
      assert s == [s[0]] + s[1..];
    }
  }

  lemma AroundIsText(line: string)
    requires line in {"old", "new"}
    ensures SideLines(Join(Around(line), '\n'), true) == Around(line)
  {
    var lines := Around(line);
    var text := Join(lines, '\n');
    assert forall i :: 0 <= i < |lines| ==> '\n' !in lines[i] && '\r' !in lines[i];
    SplitOfJoin(lines, '\n');
    JoinChars(lines, '\n', '\r');
    NormalizedPlain(text);
    hide Around, Join, Normalized;
    assert Split("", '\n') == [""];
    assert |lines| == 425 by {
      AroundLength(line);
    }
  }

  lemma AroundLength(line: string)
    ensures |Around(line)| == 425 && Around(line)[212] == "same" && Around(line)[0] == line && Around(line)[424] == line
  {
  }

  lemma SharedInTheMiddle<L(!new)>(ops: seq<Op<L>>, a: seq<L>, b: seq<L>)
    requires |a| == |b| == 425 && a[0] != b[0] && a[424] != b[424] && a[212] == b[212]
    ensures MinimalWhenSmall(ops, a, b) ==> !Minimal(ops, a, b)
  {
    hide Minimal;
    assert a[..0] == b[..0] && a[|a| - 0..] == b[|b| - 0..];
    assert IsEdges(a, b, 0, 0);
    assert Middle(a, 0, 0) == a && Middle(b, 0, 0) == b;
    assert a[212] in a && b[212] in b;
    assert !NothingToKeep(a, b);
  }

  /** Two texts just over the cap that share one line between their ends: the diff replaces it too, and a cheaper script exists. */
  lemma SharedLineLost(ops: seq<Op<string>>)
    ensures var a := SideLines(Join(Around("old"), '\n'), true);
            var b := SideLines(Join(Around("new"), '\n'), true);
            MinimalWhenSmall(ops, a, b) ==> !Minimal(ops, a, b)
  {
    hide Around, Minimal, MinimalWhenSmall, SideLines, Join;
    AroundIsText("old");
    AroundIsText("new");
    AroundLength("old");
    AroundLength("new");
    SharedInTheMiddle(ops, Around("old"), Around("new"));
  }

  /** There is only one way to trim. */
  lemma EdgesUnique<L>(a: seq<L>, b: seq<L>, p: nat, s: nat, q: nat, t: nat)
    requires IsEdges(a, b, p, s) && IsEdges(a, b, q, t)
    ensures p == q && s == t
  {
  }

  /** A script of cost zero changes nothing. */
  lemma {:induction false} FreeIffEqual<L>(ops: seq<Op<L>>)
    ensures Cost(ops) == 0 ==> Before(ops) == After(ops)
  {
    if ops != [] {
      FreeIffEqual(ops[1..]);
    }
  }

  /** Replacing everything is minimal exactly when nothing could have been kept. */
  lemma {:induction false} WholesaleMinimal<L(!new)>(a: seq<L>, b: seq<L>)
    ensures Minimal(Deletes(a) + Adds(b), a, b) <==> NothingToKeep(a, b)
  {
    Uniform(a);
    Uniform(b);
    Concat(Deletes(a), Adds(b));
    assert a + [] == a && [] + b == b;
    MinimalIffKeepsLcs(a, b, Deletes(a) + Adds(b));
    LcsZeroIffDisjoint(a, b);
  }

  lemma {:induction false} LcsZeroIffDisjoint<L>(a: seq<L>, b: seq<L>)
    ensures Lcs(a, b) == 0 <==> NothingToKeep(a, b)
    decreases |a| + |b|
  {
    if a != [] && b != [] {
      assert a == [a[0]] + a[1..] && b == [b[0]] + b[1..];
      if a[0] == b[0] {
        assert a[0] in a && a[0] in b;
      } else {
        LcsZeroIffDisjoint(a[1..], b);
        LcsZeroIffDisjoint(a, b[1..]);
        assert forall x :: x in a <==> x == a[0] || x in a[1..];
        assert forall x :: x in b <==> x == b[0] || x in b[1..];
      }
    }
  }
}
