/** The block device: one atomic read or write of a sector at a time. */
module Device {
  import opened Bytes

  datatype Option<+T> = None | Some(value: T)

  type Disk = seq<Block>

  datatype Write = Write(sector: nat, data: Block)

  ghost predicate InRange(n: nat, ws: seq<Write>) {
    forall i | 0 <= i < |ws| :: ws[i].sector < n
  }

  // The device after the first k of the writes ws.
  ghost function After(d: Disk, ws: seq<Write>, k: nat): (r: Disk)
    requires InRange(|d|, ws) && k <= |ws|
    ensures |r| == |d|
  {
    if k == 0 then d else After(d, ws, k - 1)[ws[k - 1].sector := ws[k - 1].data]
  }

  // Later writes do not matter to what the first k did.
  lemma {:induction false} AfterPrefix(d: Disk, ws: seq<Write>, more: seq<Write>, k: nat)
    requires InRange(|d|, ws) && InRange(|d|, ws + more) && k <= |ws|
    ensures After(d, ws + more, k) == After(d, ws, k)
  {
    if k > 0 {
      AfterPrefix(d, ws, more, k - 1);
    }
  }

  // Writes ws that agree with all from position k on carry on where the first k left off.
  lemma {:induction false} AfterMore(d: Disk, all: seq<Write>, k: nat, ws: seq<Write>, j: nat)
    requires InRange(|d|, all) && InRange(|d|, ws) && k + |ws| <= |all| && j <= |ws|
    requires forall i | 0 <= i < |ws| :: ws[i] == all[k + i]
    ensures After(After(d, all, k), ws, j) == After(d, all, k + j)
  {
    if j > 0 {
      AfterMore(d, all, k, ws, j - 1);
      assert ws[j - 1] == all[k + j - 1];
    }
  }
}
