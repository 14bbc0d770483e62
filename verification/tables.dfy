/** The three location tables every report reads, as sequences of rows in
    the order the database returns them. Every column is nullable. */
module Tables {
  import opened Seqs

  /** `cludata`: cluster → Lok Sabha → Vidhan Sabha. */
  datatype CluRow = CluRow(
    clusId: Option<int>, clusName: Option<string>,
    lokId: Option<int>, lokName: Option<string>,
    vidId: Option<int>, vidName: Option<string>)

  /** `smdata`: sambhag → jila → Vidhan Sabha. */
  datatype SmRow = SmRow(
    samId: Option<int>, samName: Option<string>,
    jilaId: Option<int>, jilaName: Option<string>,
    vidId: Option<int>, vidName: Option<string>)

  /** `vddata`: Vidhan Sabha → mandal → sakha → booth. */
  datatype VdRow = VdRow(
    vidId: Option<int>,
    manId: Option<int>, manName: Option<string>,
    sakId: Option<int>, sakName: Option<string>,
    btId: Option<int>, btName: Option<string>)

  datatype Db = Db(clu: seq<CluRow>, sm: seq<SmRow>, vd: seq<VdRow>)

  /** SQL `col IN (list)`: a NULL column never matches. */
  predicate InList(x: Option<int>, l: seq<int>)
  {
    x.Some? && x.value in l
  }

  /** JavaScript truthiness of a nullable numeric column: NULL and 0 are falsy. */
  predicate IdTruthy(x: Option<int>)
  {
    x.Some? && x.value != 0
  }

  /** The value of a column known to be non-null (`row.COL!`). */
  function IdOf(x: Option<int>): int
  {
    if x.Some? then x.value else 0
  }

  /** SQL `col IS NOT NULL AND col != ''` on a name column. */
  predicate NonBlankName(x: Option<string>)
  {
    x.Some? && x.value != ""
  }

  /** The rows of `ys` that join with a left row whose column is `k`: SQL
      equality never holds for NULL. */
  function Joins<B>(ky: B -> Option<int>, k: Option<int>): B -> bool
  {
    (y: B) => k.Some? && ky(y) == k
  }

  function PairWith<A, B>(x: A): B -> (A, B)
  {
    (y: B) => (x, y)
  }

  /** `xs JOIN ys ON xs.col = ys.col`: one pair per matching pair of row
      positions, as SQL gives, in `xs` order and then `ys` order. */
  function JoinOn<A(!new), B(!new)>(xs: seq<A>, ys: seq<B>, kx: A -> Option<int>, ky: B -> Option<int>): (r: seq<(A, B)>)
    ensures forall p :: p in r <==> p.0 in xs && p.1 in ys && kx(p.0).Some? && kx(p.0) == ky(p.1)
    decreases |xs|
  {
    if xs == [] then []
    else
      var pre := xs[..|xs| - 1];
      var x := xs[|xs| - 1];
      var f := Filter(ys, Joins(ky, kx(x)));
      var tail := Map(f, PairWith(x));
      assert forall p :: p in tail <==> p.0 == x && p.1 in f by {
        forall p ensures p in tail <==> p.0 == x && p.1 in f {
          if p.0 == x && p.1 in f {
            var j :| 0 <= j < |f| && f[j] == p.1;
            assert tail[j] == p;
          }
        }
      }
      assert forall a :: a in xs <==> a in pre || a == x by { assert xs == pre + [x]; }
      JoinOn(pre, ys, kx, ky) + tail
  }
}
