/** The DataFlash page behind the slot table (`hidkbd_ble.c`): how `slotmap_save` lays out host
    addresses, names, paces, own MACs and address types, and what `slotmap_load` makes of a
    page at boot. Bytes are ints from 0 to 255. */
module SlotPage {

  const PAGE_LEN: nat := 96
  const SLOTNAME_LEN: nat := 12
  const SLOTPACE_DFLT: int := 30
  const MAGIC: Bytes := [0x01, 0x00, 0x7E, 0xA7] // 0xA77E0001, little-endian
  const FREE_ROW: Bytes := [0xFF, 0xFF, 0xFF, 0xFF, 0xFF, 0xFF]
  const NO_NAME: Bytes := [0, 0, 0, 0, 0, 0, 0, 0, 0, 0, 0, 0]

  const ERASED: Bytes := seq(PAGE_LEN, _ => 0xFF)

  type Bytes = seq<int>

  datatype Table = Table(rows: seq<Bytes>, names: seq<Bytes>, paces: seq<int>, macs: seq<Bytes>, types: seq<int>)

  ghost predicate Width6(rows: seq<Bytes>) {
    forall s :: 0 <= s < |rows| ==> |rows[s]| == 6
  }

  ghost predicate Width12(rows: seq<Bytes>) {
    forall s :: 0 <= s < |rows| ==> |rows[s]| == 12
  }

  predicate NameOk(name: Bytes) {
    |name| == SLOTNAME_LEN && name[0] != 0xFF && name[SLOTNAME_LEN - 1] == 0
  }

  ghost predicate NamesOk(names: seq<Bytes>) {
    forall s :: 0 <= s < |names| ==> NameOk(names[s])
  }

  ghost predicate PacesOk(paces: seq<int>) {
    forall s :: 0 <= s < |paces| ==> 5 <= paces[s] <= 2000
  }

  ghost predicate TypesOk(types: seq<int>) {
    forall s :: 0 <= s < |types| ==> 0 <= types[s] <= 1
  }

  // `k` slots, each field as the commands can leave it.
  ghost predicate Wf(t: Table, k: nat) {
    && |t.rows| == |t.names| == |t.paces| == |t.macs| == |t.types| == k
    && Width6(t.rows) && NamesOk(t.names) && PacesOk(t.paces) && Width6(t.macs) && TypesOk(t.types)
  }

  // ------------------------------------------------------------- the layout --

  function Flat(rows: seq<Bytes>): Bytes {
    if rows == [] then [] else rows[0] + Flat(rows[1..])
  }

  function PaceBytes(paces: seq<int>): Bytes {
    if paces == [] then [] else [paces[0] % 256, paces[0] / 256 % 256] + PaceBytes(paces[1..])
  }

  // Where the fields start.
  function NamesAt(k: nat): nat { 4 + 6 * k }
  function PacesAt(k: nat): nat { NamesAt(k) + 12 * k }
  function MacsAt(k: nat): nat { PacesAt(k) + 2 * k }
  function TypesAt(k: nat): nat { MacsAt(k) + 6 * k }
  function LayoutLen(k: nat): nat { TypesAt(k) + k }

  function Layout(t: Table): Bytes {
    MAGIC + (Flat(t.rows) + (Flat(t.names) + (PaceBytes(t.paces) + (Flat(t.macs) + t.types))))
  }

  ghost predicate Holds(page: Bytes, t: Table, k: nat) {
    |page| == PAGE_LEN && LayoutLen(k) <= PAGE_LEN && page[..LayoutLen(k)] == Layout(t)
  }

  lemma {:induction false} Flat6(rows: seq<Bytes>)
    requires Width6(rows)
    ensures |Flat(rows)| == 6 * |rows|
    ensures forall s :: 0 <= s < |rows| ==> Flat(rows)[6 * s..6 * s + 6] == rows[s]
  {
    if rows == [] {
    } else {
      Flat6(rows[1..]);
      var f, g := Flat(rows), Flat(rows[1..]);
      forall s | 0 <= s < |rows| ensures f[6 * s..6 * s + 6] == rows[s] {
        if s > 0 {
          assert g[6 * (s - 1)..6 * (s - 1) + 6] == rows[1..][s - 1];
          assert f[6 * s..6 * s + 6] == g[6 * (s - 1)..6 * (s - 1) + 6];
        }
      }
    }
  }

  lemma {:induction false} Flat12(rows: seq<Bytes>)
    requires Width12(rows)
    ensures |Flat(rows)| == 12 * |rows|
    ensures forall s :: 0 <= s < |rows| ==> Flat(rows)[12 * s..12 * s + 12] == rows[s]
  {
    if rows == [] {
    } else {
      Flat12(rows[1..]);
      var f, g := Flat(rows), Flat(rows[1..]);
      forall s | 0 <= s < |rows| ensures f[12 * s..12 * s + 12] == rows[s] {
        if s > 0 {
          assert g[12 * (s - 1)..12 * (s - 1) + 12] == rows[1..][s - 1];
          assert f[12 * s..12 * s + 12] == g[12 * (s - 1)..12 * (s - 1) + 12];
        }
      }
    }
  }

  lemma {:induction false} PaceBytesAt(paces: seq<int>)
    ensures |PaceBytes(paces)| == 2 * |paces|
    ensures forall s :: 0 <= s < |paces| ==>
              PaceBytes(paces)[2 * s] == paces[s] % 256 && PaceBytes(paces)[2 * s + 1] == paces[s] / 256 % 256
  {
    if paces == [] {
    } else {
      PaceBytesAt(paces[1..]);
      var f, g := PaceBytes(paces), PaceBytes(paces[1..]);
      forall s | 0 < s < |paces| ensures f[2 * s] == g[2 * (s - 1)] && f[2 * s + 1] == g[2 * (s - 1) + 1] {
      }
    }
  }

  // ---------------------------------------------------------------- loading --

  function NameAt(nm: Bytes, s: nat): Bytes
    requires 12 * s + 12 <= |nm|
  {
    if nm[12 * s] != 0xFF then nm[12 * s..12 * s + 12] else NO_NAME
  }

  function Pace(lo: int, hi: int): int {
    var v := lo + 256 * hi;
    if v != 0xFFFF && 5 <= v <= 2000 then v else SLOTPACE_DFLT
  }

  function PaceFrom(pc: Bytes, s: nat): int
    requires 2 * s + 2 <= |pc|
  {
    Pace(pc[2 * s], pc[2 * s + 1])
  }

  // The chip's MAC with the slot added to its lowest byte.
  function Derived(chip: Bytes, s: nat): Bytes
    requires |chip| == 6
  {
    chip[0 := (chip[0] + s) % 256]
  }

  predicate Unset(mac: Bytes)
    requires |mac| == 6
  {
    mac[0] == 0xFF && mac[5] == 0xFF
  }

  function MacOr(mac: Bytes, chip: Bytes, s: nat): Bytes
    requires |mac| == |chip| == 6
  {
    if Unset(mac) then Derived(chip, s) else mac
  }

  function RowsFrom(f: Bytes, k: nat): seq<Bytes>
    requires |f| == 6 * k
  {
    seq(k, s requires 0 <= s < k => f[6 * s..6 * s + 6])
  }

  function RawNames(nm: Bytes, k: nat): seq<Bytes>
    requires |nm| == 12 * k
  {
    seq(k, s requires 0 <= s < k => NameAt(nm, s))
  }

  function Terminated(names: seq<Bytes>): seq<Bytes>
    requires forall s :: 0 <= s < |names| ==> |names[s]| == SLOTNAME_LEN
  {
    seq(|names|, s requires 0 <= s < |names| => names[s][SLOTNAME_LEN - 1 := 0])
  }

  function NamesFrom(nm: Bytes, k: nat): seq<Bytes>
    requires |nm| == 12 * k
  {
    Terminated(RawNames(nm, k))
  }

  function PacesFrom(pc: Bytes, k: nat): seq<int>
    requires |pc| == 2 * k
  {
    seq(k, s requires 0 <= s < k => PaceFrom(pc, s))
  }

  function TypesFrom(ty: Bytes): seq<int> {
    seq(|ty|, s requires 0 <= s < |ty| => if ty[s] > 1 then 1 else ty[s])
  }

  // Unset MACs are derived from the chip's.
  function MacsOr(macs: seq<Bytes>, chip: Bytes): seq<Bytes>
    requires |chip| == 6 && forall s :: 0 <= s < |macs| ==> |macs[s]| == 6
  {
    seq(|macs|, s requires 0 <= s < |macs| => MacOr(macs[s], chip, s))
  }

  /** What `slotmap_load` leaves in the tables; without the magic number it keeps the `types`. */
  function Load(page: Bytes, chip: Bytes, k: nat, types: seq<int>): Table
    requires |page| == PAGE_LEN && |chip| == 6 && LayoutLen(k) <= PAGE_LEN
  {
    if page[..4] == MAGIC then
      Table(RowsFrom(page[4..NamesAt(k)], k),
            NamesFrom(page[NamesAt(k)..PacesAt(k)], k),
            PacesFrom(page[PacesAt(k)..MacsAt(k)], k),
            MacsOr(RowsFrom(page[MacsAt(k)..TypesAt(k)], k), chip),
            TypesFrom(page[TypesAt(k)..LayoutLen(k)]))
    else
      Table(seq(k, _ => FREE_ROW), seq(k, _ => NO_NAME), seq(k, _ => SLOTPACE_DFLT),
            MacsOr(seq(k, _ => FREE_ROW), chip), types)
  }

  /** The tables at boot, where the types start as zeros. */
  function Boot(page: Bytes, chip: Bytes, k: nat): Table
    requires |page| == PAGE_LEN && |chip| == 6 && LayoutLen(k) <= PAGE_LEN
  {
    Load(page, chip, k, seq(k, _ => 0))
  }

  // ------------------------------------------------------------ the round trip --

  lemma Cut(page: Bytes, at: nat, x: Bytes, rest: Bytes, end: nat)
    requires end == at + |x| + |rest| <= |page|
    requires page[at..end] == x + rest
    ensures page[at..at + |x|] == x && page[at + |x|..end] == rest
  {
    var all := page[at..end];
    assert page[at..at + |x|] == all[..|x|];
    assert page[at + |x|..end] == all[|x|..];
  }

  lemma Parts(page: Bytes, m: Bytes, a: Bytes, b: Bytes, c: Bytes, d: Bytes, e: Bytes)
    requires |m| + |a| + |b| + |c| + |d| + |e| <= |page|
    requires page[..|m| + |a| + |b| + |c| + |d| + |e|] == m + (a + (b + (c + (d + e))))
    ensures var p1 := |m|; var p2 := p1 + |a|; var p3 := p2 + |b|; var p4 := p3 + |c|; var p5 := p4 + |d|;
            && page[..p1] == m && page[p1..p2] == a && page[p2..p3] == b && page[p3..p4] == c
            && page[p4..p5] == d && page[p5..p5 + |e|] == e
  {
    var p1 := |m|;
    var p2 := p1 + |a|;
    var p3 := p2 + |b|;
    var p4 := p3 + |c|;
    var p5 := p4 + |d|;
    var end := p5 + |e|;
    Cut(page, 0, m, a + (b + (c + (d + e))), end);
    Cut(page, p1, a, b + (c + (d + e)), end);
    Cut(page, p2, b, c + (d + e), end);
    Cut(page, p3, c, d + e, end);
    Cut(page, p4, d, e, end);
  }

  lemma FieldLengths(t: Table, k: nat)
    requires Wf(t, k)
    ensures |Flat(t.rows)| == |Flat(t.macs)| == 6 * k && |Flat(t.names)| == 12 * k && |PaceBytes(t.paces)| == 2 * k
  {
    Flat6(t.rows);
    Flat6(t.macs);
    Flat12(t.names);
    PaceBytesAt(t.paces);
  }

  lemma LayoutParts(page: Bytes, t: Table, k: nat)
    requires Wf(t, k) && Holds(page, t, k)
    ensures page[..4] == MAGIC
    ensures page[4..NamesAt(k)] == Flat(t.rows)
    ensures page[NamesAt(k)..PacesAt(k)] == Flat(t.names)
    ensures page[PacesAt(k)..MacsAt(k)] == PaceBytes(t.paces)
    ensures page[MacsAt(k)..TypesAt(k)] == Flat(t.macs)
    ensures page[TypesAt(k)..LayoutLen(k)] == t.types
  {
    FieldLengths(t, k);
    Parts(page, MAGIC, Flat(t.rows), Flat(t.names), PaceBytes(t.paces), Flat(t.macs), t.types);
  }

  lemma RowsBack(rows: seq<Bytes>)
    requires Width6(rows)
    ensures |Flat(rows)| == 6 * |rows| && RowsFrom(Flat(rows), |rows|) == rows
  {
    Flat6(rows);
  }

  lemma NamesBack(names: seq<Bytes>)
    requires NamesOk(names)
    ensures |Flat(names)| == 12 * |names| && NamesFrom(Flat(names), |names|) == names
  {
    Flat12(names);
    var nm := Flat(names);
    forall s | 0 <= s < |names| ensures NameAt(nm, s)[SLOTNAME_LEN - 1 := 0] == names[s] {
      assert nm[12 * s..12 * s + 12] == names[s];
      assert nm[12 * s] == nm[12 * s..12 * s + 12][0];
      assert names[s][11 := 0] == names[s];
    }
  }

  lemma PaceBack(v: int)
    requires 5 <= v <= 2000
    ensures Pace(v % 256, v / 256 % 256) == v
  {
  }

  lemma PacesBack(paces: seq<int>)
    requires PacesOk(paces)
    ensures |PaceBytes(paces)| == 2 * |paces| && PacesFrom(PaceBytes(paces), |paces|) == paces
  {
    PaceBytesAt(paces);
    var pc := PaceBytes(paces);
    forall s | 0 <= s < |paces| ensures PaceFrom(pc, s) == paces[s] {
      PaceBack(paces[s]);
    }
  }

  lemma TypesBack(types: seq<int>)
    requires TypesOk(types)
    ensures TypesFrom(types) == types
  {
  }

  /** Own MACs that are not mistaken for unset ones, or that would be derived anyway. */
  ghost predicate MacsKeep(macs: seq<Bytes>, chip: Bytes)
    requires Width6(macs) && |chip| == 6
  {
    forall s :: 0 <= s < |macs| ==> Unset(macs[s]) ==> macs[s] == Derived(chip, s)
  }

  lemma MacsBack(macs: seq<Bytes>, chip: Bytes)
    requires Width6(macs) && |chip| == 6
    ensures MacsOr(macs, chip) == macs <==> MacsKeep(macs, chip)
  {
    var after := MacsOr(macs, chip);
    if after == macs {
      forall s | 0 <= s < |macs| && Unset(macs[s]) ensures macs[s] == Derived(chip, s) {
        assert after[s] == macs[s];
      }
    }
  }

  /** A reboot restores everything a saved page was written from, except own MACs that begin
      and end with 0xFF and are not the derived ones: then, and only then, the table changes. */
  lemma RestoresIff(page: Bytes, t: Table, chip: Bytes, k: nat)
    requires Wf(t, k) && |chip| == 6 && Holds(page, t, k)
    ensures Boot(page, chip, k) == t <==> MacsKeep(t.macs, chip)
    ensures Boot(page, chip, k).(macs := t.macs) == t
  {
    LayoutParts(page, t, k);
    RowsBack(t.rows);
    NamesBack(t.names);
    PacesBack(t.paces);
    RowsBack(t.macs);
    TypesBack(t.types);
    MacsBack(t.macs, chip);
  }

  /** Whatever the page holds, the tables are well formed after a boot. */
  lemma BootIsWf(page: Bytes, chip: Bytes, k: nat)
    requires |page| == PAGE_LEN && |chip| == 6 && LayoutLen(k) <= PAGE_LEN
    requires forall i :: 0 <= i < |page| ==> 0 <= page[i] < 256
    ensures Wf(Boot(page, chip, k), k)
  {
    var t := Boot(page, chip, k);
    if page[..4] == MAGIC {
      var nm, ty := page[NamesAt(k)..PacesAt(k)], page[TypesAt(k)..LayoutLen(k)];
      forall s | 0 <= s < k ensures NameOk(t.names[s]) && 0 <= t.types[s] <= 1 {
        assert NameAt(nm, s)[0] != 0xFF;
        assert ty[s] == page[TypesAt(k) + s];
      }
    }
  }

  lemma DerivedApart(chip: Bytes, s: nat, u: nat)
    requires |chip| == 6 && s < u < 256
    ensures Derived(chip, s) != Derived(chip, u)
  {
    assert Derived(chip, s)[0] == (chip[0] + s) % 256 && Derived(chip, u)[0] == (chip[0] + u) % 256;
  }

  // Free, unnamed, with the default pace and the chip's MAC plus `s`.
  predicate FreshSlot(t: Table, s: nat, chip: Bytes)
    requires |chip| == 6
  {
    && s < |t.rows| && |t.rows[s]| == 6 && t.rows[s][0] == 0xFF
    && s < |t.names| && |t.names[s]| > 0 && t.names[s][0] == 0
    && s < |t.paces| && t.paces[s] == 30
    && s < |t.macs| && |t.macs[s]| == 6 && t.macs[s][0] == (chip[0] + s) % 256 && t.macs[s][1..] == chip[1..]
  }

  /** A page that was never saved boots with every slot fresh and every own MAC another one, the
      first the chip's; the one the factory reset leaves is such a page. */
  lemma UnsavedIsFresh(page: Bytes, chip: Bytes, k: nat)
    requires |page| == PAGE_LEN && |chip| == 6 && LayoutLen(k) <= PAGE_LEN && page[..4] != MAGIC
    requires forall i :: 0 <= i < 6 ==> 0 <= chip[i] < 256
    ensures var t := Boot(page, chip, k);
            && |t.rows| == |t.macs| == |t.types| == k
            && (forall s :: 0 <= s < k ==> FreshSlot(t, s, chip) && t.types[s] == 0)
            && (forall s, u :: 0 <= s < u < k ==> t.macs[s] != t.macs[u]) && (k > 0 ==> t.macs[0] == chip)
    ensures ERASED[..4] != MAGIC
  {
    var t := Boot(page, chip, k);
    forall s | 0 <= s < k ensures t.macs[s] == Derived(chip, s) && t.macs[s][1..] == chip[1..] {
      assert MacOr(FREE_ROW, chip, s) == Derived(chip, s);
    }
    forall s, u | 0 <= s < u < k ensures t.macs[s] != t.macs[u] {
      DerivedApart(chip, s, u);
    }
    if k > 0 { assert Derived(chip, 0) == chip; }
    assert ERASED[..4][0] == 0xFF;
  }

  ghost predicate Erased(b: Bytes) {
    forall i :: 0 <= i < |b| ==> b[i] == 0xFF
  }

  // Of a page as it was before there were names, paces, own MACs and types.
  ghost predicate Legacy(page: Bytes, rows: seq<Bytes>) {
    && |page| == PAGE_LEN && LayoutLen(|rows|) <= PAGE_LEN && Width6(rows)
    && page[..NamesAt(|rows|)] == MAGIC + Flat(rows)
    && Erased(page[NamesAt(|rows|)..])
  }

  lemma ErasedName(nm: Bytes, s: nat)
    requires Erased(nm) && 12 * s + 12 <= |nm|
    ensures NameAt(nm, s) == NO_NAME && NO_NAME[SLOTNAME_LEN - 1 := 0] == NO_NAME
  {
  }

  lemma ErasedMac(mc: Bytes, chip: Bytes, s: nat)
    requires Erased(mc) && 6 * s + 6 <= |mc| && |chip| == 6
    ensures MacOr(mc[6 * s..6 * s + 6], chip, s) == Derived(chip, s)
    ensures Derived(chip, s)[0] == (chip[0] + s) % 256 && Derived(chip, s)[1..] == chip[1..]
  {
    assert mc[6 * s..6 * s + 6][0] == mc[6 * s] && mc[6 * s..6 * s + 6][5] == mc[6 * s + 5];
  }

  lemma ErasedPart(page: Bytes, n: nat, i: nat, j: nat)
    requires n <= i <= j <= |page| && Erased(page[n..])
    ensures Erased(page[i..j])
  {
    assert page[i..j] == page[n..][i - n..j - n];
  }

  lemma TwoParts(page: Bytes, a: Bytes, b: Bytes)
    requires |a| + |b| <= |page| && page[..|a| + |b|] == a + b
    ensures page[..|a|] == a && page[|a|..|a| + |b|] == b
  {
    assert page[..|a|] == page[..|a| + |b|][..|a|];
    assert page[|a|..|a| + |b|] == page[..|a| + |b|][|a|..];
  }

  /** Such a page keeps its bindings; all else is as if it had not been set, but for the address
      types, which count as random. */
  lemma LegacyLoads(page: Bytes, rows: seq<Bytes>, chip: Bytes, s: nat)
    requires Legacy(page, rows) && |chip| == 6 && s < |rows|
    ensures var t := Boot(page, chip, |rows|);
            && t.rows == rows && t.types[s] == 1
            && FreshSlot(t.(rows := t.rows[s := FREE_ROW]), s, chip)
  {
    var k := |rows|;
    RowsBack(rows);
    TwoParts(page, MAGIC, Flat(rows));
    ErasedPart(page, NamesAt(k), NamesAt(k), PacesAt(k));
    ErasedPart(page, NamesAt(k), PacesAt(k), MacsAt(k));
    ErasedPart(page, NamesAt(k), MacsAt(k), TypesAt(k));
    ErasedPart(page, NamesAt(k), TypesAt(k), LayoutLen(k));
    ErasedName(page[NamesAt(k)..PacesAt(k)], s);
    ErasedMac(page[MacsAt(k)..TypesAt(k)], chip, s);
  }

  // ------------------------------------------------------------- the commands --

  predicate NameChar(c: int) {
    0x41 <= c <= 0x5A || 0x61 <= c <= 0x7A || 0x30 <= c <= 0x39 || c == 0x2D || c == 0x5F
  }

  function AcceptedFrom(name: Bytes, i: nat): (n: nat)
    requires i <= |name| && i <= SLOTNAME_LEN - 1
    ensures i <= n <= |name| && n <= SLOTNAME_LEN - 1
    ensures forall j :: i <= j < n ==> NameChar(name[j])
    ensures n < |name| && n < SLOTNAME_LEN - 1 ==> !NameChar(name[n])
    decreases |name| - i
  {
    if i < |name| && i < SLOTNAME_LEN - 1 && NameChar(name[i]) then AcceptedFrom(name, i + 1) else i
  }

  /** How many characters of `name` (a C string without its terminator) the setter copies:
      up to the first it refuses, at most eleven. */
  function Accepted(name: Bytes): (n: nat)
    ensures n <= |name| && n <= SLOTNAME_LEN - 1
    ensures forall i :: 0 <= i < n ==> NameChar(name[i])
    ensures n < |name| && n < SLOTNAME_LEN - 1 ==> !NameChar(name[n])
  {
    AcceptedFrom(name, 0)
  }

  predicate NameRefused(name: Bytes) {
    Accepted(name) < |name| && Accepted(name) < SLOTNAME_LEN - 1
  }

  // The first `n` bytes of `name` over the old name.
  function Overlay(was: Bytes, name: Bytes, n: nat): (r: Bytes)
    requires |was| == SLOTNAME_LEN && n <= |name| && n <= SLOTNAME_LEN
    ensures |r| == SLOTNAME_LEN
  {
    if n == 0 then was else Overlay(was, name, n - 1)[n - 1 := name[n - 1]]
  }

  /** What a slot's name in RAM becomes, accepted or not. */
  function Renamed(was: Bytes, name: Bytes): Bytes
    requires |was| == SLOTNAME_LEN
  {
    var n := Accepted(name);
    if NameRefused(name) then Overlay(was, name, n) else Overlay(was, name, n)[n := 0]
  }

  lemma OneOver(was: Bytes, name: Bytes, i: nat)
    requires i < |name| && i < |was|
    ensures (name[..i] + was[i..])[i := name[i]] == name[..i + 1] + was[i + 1..]
  {
  }

  lemma {:induction false} OverlayIs(was: Bytes, name: Bytes, n: nat)
    requires |was| == SLOTNAME_LEN && n <= |name| && n <= SLOTNAME_LEN
    ensures Overlay(was, name, n) == name[..n] + was[n..]
  {
    if n == 0 {
    } else {
      OverlayIs(was, name, n - 1);
      OneOver(was, name, n - 1);
    }
  }

  // A C string: the bytes before the first zero.
  function CString(s: Bytes): Bytes {
    if s == [] || s[0] == 0 then [] else [s[0]] + CString(s[1..])
  }

  lemma {:induction false} ReadsUpTo(s: Bytes, x: Bytes)
    requires |x| < |s| && s[..|x|] == x && s[|x|] == 0 && 0 !in x
    ensures CString(s) == x
  {
    if x == [] {
    } else {
      assert s[0] == x[0] && x[0] in x;
      assert s[1..][..|x| - 1] == s[..|x|][1..];
      ReadsUpTo(s[1..], x[1..]);
    }
  }

  /** The new name reads back as given (its first eleven characters); a refused one leaves the
      old name in place exactly when the characters before the refused one agree with it. */
  lemma RenamedReads(was: Bytes, name: Bytes)
    requires NameOk(was) && 0 !in name
    ensures NameOk(Renamed(was, name))
    ensures !NameRefused(name) ==>
              CString(Renamed(was, name)) == if |name| < SLOTNAME_LEN then name else name[..SLOTNAME_LEN - 1]
    ensures NameRefused(name) ==> (Renamed(was, name) == was <==> name[..Accepted(name)] <= was)
  {
    var n, r := Accepted(name), Renamed(was, name);
    OverlayIs(was, name, n);
    if NameRefused(name) {
      assert r[..n] == name[..n];
      if name[..n] <= was { assert r == was; }
    } else {
      assert r == name[..n] + [0] + was[n + 1..];
      ReadsUpTo(r, name[..n]);
    }
  }

  lemma Flatten(a: Bytes, b: Bytes, c: Bytes, d: Bytes, e: Bytes, f: Bytes)
    ensures a + b + c + d + e + f == a + (b + (c + (d + (e + f))))
  {
  }

  /** The statics and the flash page. `k` is KBD_MAX_CONN, `chip` the chip's MAC. */
  class SlotStore {
    const k: nat
    const chip: Bytes
    var slotmap: seq<Bytes>
    var slotname: seq<Bytes>
    var slotpace: seq<int>
    var slotmac: seq<Bytes>
    var slottype: seq<int>
    var page: Bytes

    function Ram(): Table
      reads this
    {
      Table(slotmap, slotname, slotpace, slotmac, slottype)
    }

    ghost predicate Valid()
      reads this
    {
      LayoutLen(k) <= PAGE_LEN && |chip| == 6 && |page| == PAGE_LEN && Wf(Ram(), k)
    }

    // The page is what the last save wrote from the tables as they are now.
    ghost predicate Synced()
      reads this
    {
      Valid() && Holds(page, Ram(), k)
    }

    method TerminateNames()
      requires |slotname| == k && forall s :: 0 <= s < k ==> |slotname[s]| == SLOTNAME_LEN
      modifies this`slotname
      ensures slotname == Terminated(old(slotname))
    {
      ghost var names := slotname;
      var s := 0;
      while s < k
        invariant s <= k == |slotname|
        invariant forall i :: 0 <= i < s ==> slotname[i] == names[i][SLOTNAME_LEN - 1 := 0]
        invariant forall i :: s <= i < k ==> slotname[i] == names[i]
      {
        slotname := slotname[s := slotname[s][SLOTNAME_LEN - 1 := 0]];
        s := s + 1;
      }
    }

    method DeriveMacs()
      requires |chip| == 6 && |slotmac| == k && forall s :: 0 <= s < k ==> |slotmac[s]| == 6
      modifies this`slotmac
      ensures slotmac == MacsOr(old(slotmac), chip)
    {
      ghost var macs := slotmac;
      var s := 0;
      while s < k
        invariant s <= k == |slotmac|
        invariant forall i :: 0 <= i < s ==> slotmac[i] == MacOr(macs[i], chip, i)
        invariant forall i :: s <= i < k ==> slotmac[i] == macs[i]
      {
        if Unset(slotmac[s]) {
          slotmac := slotmac[s := chip[0 := (chip[0] + s) % 256]];
        }
        s := s + 1;
      }
    }

    method LoadTypes(ty: Bytes)
      requires |ty| == k
      modifies this`slottype
      ensures slottype == TypesFrom(ty)
    {
      slottype := ty;
      var s := 0;
      while s < k
        invariant s <= k == |slottype|
        invariant forall i :: 0 <= i < s ==> slottype[i] == if ty[i] > 1 then 1 else ty[i]
        invariant forall i :: s <= i < k ==> slottype[i] == ty[i]
      {
        if slottype[s] > 1 {
          slottype := slottype[s := 1];
        }
        s := s + 1;
      }
    }

    method LoadPaces(pc: Bytes)
      requires |pc| == 2 * k && slotpace == seq(k, _ => SLOTPACE_DFLT)
      modifies this`slotpace
      ensures slotpace == PacesFrom(pc, k)
    {
      var s := 0;
      while s < k
        invariant s <= k == |slotpace|
        invariant forall i :: 0 <= i < s ==> slotpace[i] == PaceFrom(pc, i)
        invariant forall i :: s <= i < k ==> slotpace[i] == SLOTPACE_DFLT
      {
        var v := pc[2 * s] + 256 * pc[2 * s + 1];
        if v != 0xFFFF && v >= 5 && v <= 2000 {
          slotpace := slotpace[s := v];
        }
        s := s + 1;
      }
    }

    method LoadNames(nm: Bytes)
      requires |nm| == 12 * k && slotname == seq(k, _ => NO_NAME)
      modifies this`slotname
      ensures slotname == RawNames(nm, k)
    {
      var s := 0;
      while s < k
        invariant s <= k == |slotname|
        invariant forall i :: 0 <= i < s ==> slotname[i] == NameAt(nm, i)
        invariant forall i :: s <= i < k ==> slotname[i] == NO_NAME
      {
        if nm[12 * s] != 0xFF {
          slotname := slotname[s := nm[12 * s..12 * s + 12]];
        }
        s := s + 1;
      }
    }

    method SlotmapLoad()
      requires LayoutLen(k) <= PAGE_LEN && |chip| == 6 && |page| == PAGE_LEN
      modifies this`slotmap, this`slotname, this`slotpace, this`slotmac, this`slottype
      ensures Ram() == Load(page, chip, k, old(slottype))
    {
      slotmap, slotname, slotmac := seq(k, _ => FREE_ROW), seq(k, _ => NO_NAME), seq(k, _ => FREE_ROW);
      slotpace := seq(k, _ => SLOTPACE_DFLT);
      if page[..4] == MAGIC {
        slotmap := RowsFrom(page[4..NamesAt(k)], k);
        LoadNames(page[NamesAt(k)..PacesAt(k)]);
        LoadPaces(page[PacesAt(k)..MacsAt(k)]);
        slotmac := RowsFrom(page[MacsAt(k)..TypesAt(k)], k);
        LoadTypes(page[TypesAt(k)..LayoutLen(k)]);
      }
      DeriveMacs();
      assert NO_NAME[SLOTNAME_LEN - 1 := 0] == NO_NAME;
      TerminateNames();
    }

    /** The first boot. */
    constructor (k: nat, chip: Bytes, page: Bytes)
      requires |page| == PAGE_LEN && |chip| == 6 && LayoutLen(k) <= PAGE_LEN
      requires forall i :: 0 <= i < |page| ==> 0 <= page[i] < 256
      ensures Valid() && this.k == k && this.chip == chip && this.page == page
      ensures Ram() == Boot(page, chip, k)
    {
      this.k, this.chip, this.page := k, chip, page;
      slottype := seq(k, _ => 0);
      new;
      SlotmapLoad();
      BootIsWf(page, chip, k);
    }

    method MemCpy(buf: array<int>, at: nat, src: Bytes) returns (end: nat)
      requires at + |src| <= buf.Length
      modifies buf
      ensures end == at + |src| && buf[..end] == old(buf[..at]) + src
    {
      ghost var was := buf[..at];
      var i := 0;
      while i < |src|
        invariant i <= |src|
        invariant buf[..at + i] == was + src[..i]
      {
        buf[at + i] := src[i];
        i := i + 1;
      }
      assert src[..i] == src;
      end := at + |src|;
    }

    method Lay(buf: array<int>, rows: Bytes, names: Bytes, paces: Bytes, macs: Bytes, types: Bytes) returns (p: nat)
      requires 4 + |rows| + |names| + |paces| + |macs| + |types| <= buf.Length
      modifies buf
      ensures p == 4 + |rows| + |names| + |paces| + |macs| + |types|
      ensures buf[..p] == MAGIC + (rows + (names + (paces + (macs + types))))
    {
      p := MemCpy(buf, 0, MAGIC);
      p := MemCpy(buf, p, rows);
      p := MemCpy(buf, p, names);
      p := MemCpy(buf, p, paces);
      p := MemCpy(buf, p, macs);
      p := MemCpy(buf, p, types);
      assert [] + MAGIC == MAGIC;
      Flatten(MAGIC, rows, names, paces, macs, types);
    }

    /** Bytes behind the layout are whatever the buffer held. */
    method SlotmapSave()
      requires Valid()
      modifies this`page
      ensures Synced()
    {
      ghost var t := Ram();
      FieldLengths(t, k);
      var buf := new int[PAGE_LEN];
      var p := Lay(buf, Flat(slotmap), Flat(slotname), PaceBytes(slotpace), Flat(slotmac), slottype);
      page := buf[..];
      assert page[..p] == buf[..p];
    }

    // ------------------------------------------------------------ AT commands --

    /** A refused name has already overwritten the one in RAM as far as its characters were
        accepted; the page still has the old one. */
    method SetName(slot: nat, name: Bytes) returns (ok: bool)
      requires Valid() && 0 !in name
      modifies this`slotname, this`page
      ensures ok == (slot < k && !NameRefused(name))
      ensures slotname == if slot >= k then old(slotname)
                          else old(slotname)[slot := Renamed(old(slotname)[slot], name)]
      ensures if ok then Synced() else Valid() && page == old(page)
    {
      if slot >= k { return false; }
      ghost var names, was := slotname, slotname[slot];
      var n := 0;
      while n < |name| && n < SLOTNAME_LEN - 1
        invariant n <= |name| && n <= SLOTNAME_LEN - 1 && AcceptedFrom(name, n) == Accepted(name)
        invariant slotname == names[slot := Overlay(was, name, n)]
        modifies this`slotname
      {
        if !NameChar(name[n]) {
          RenamedReads(was, name);
          return false;
        }
        slotname := slotname[slot := slotname[slot][n := name[n]]];
        n := n + 1;
      }
      slotname := slotname[slot := slotname[slot][n := 0]];
      RenamedReads(was, name);
      SlotmapSave();
      return true;
    }

    method SetPace(slot: nat, ms: int) returns (ok: bool)
      requires Valid()
      modifies this`slotpace, this`page
      ensures ok == (slot < k && 5 <= ms <= 2000)
      ensures slotpace == if ok then old(slotpace)[slot := ms] else old(slotpace)
      ensures if ok then Synced() else page == old(page)
    {
      if slot >= k || ms < 5 || ms > 2000 { return false; }
      slotpace := slotpace[slot := ms];
      SlotmapSave();
      return true;
    }

    /** Only static random addresses: the two top bits of the last byte are set. */
    method SetMac(slot: nat, addr: Bytes) returns (ok: bool)
      requires Valid() && |addr| == 6 && forall b :: b in addr ==> 0 <= b < 256
      modifies this`slotmac, this`page
      ensures ok == (slot < k && addr[5] >= 0xC0)
      ensures slotmac == if ok then old(slotmac)[slot := addr] else old(slotmac)
      ensures if ok then Synced() else page == old(page)
    {
      assert addr[5] in addr;
      if slot >= k || addr[5] / 64 != 3 { return false; }
      slotmac := slotmac[slot := addr];
      SlotmapSave();
      return true;
    }

    method SetType(slot: nat, ty: nat)
      requires Valid()
      modifies this`slottype, this`page
      ensures var does := slot < k && ty <= 1 && old(slottype)[slot] != ty;
              && slottype == (if does then old(slottype)[slot := ty] else old(slottype))
              && if does then Synced() else page == old(page)
    {
      if slot < k && slottype[slot] != ty && ty <= 1 {
        slottype := slottype[slot := ty];
        SlotmapSave();
      }
    }

    /** The row a new host gets in `kbd_slot_alloc`. */
    method Bind(slot: nat, addr: Bytes)
      requires Valid() && slot < k && |addr| == 6
      modifies this`slotmap, this`page
      ensures slotmap == old(slotmap)[slot := addr] && Synced()
    {
      slotmap := slotmap[slot := addr];
      SlotmapSave();
    }

    method Unbind(slot: nat) returns (ok: bool)
      requires Valid()
      modifies this`slotmap, this`slotname, this`slotpace, this`page
      ensures ok == (slot < k && old(slotmap)[slot][0] != 0xFF)
      ensures ok ==> && Synced() && slotmap == old(slotmap)[slot := FREE_ROW]
                     && slotname == old(slotname)[slot := old(slotname)[slot][0 := 0]]
                     && slotpace == old(slotpace)[slot := SLOTPACE_DFLT]
      ensures !ok ==> Ram() == old(Ram()) && page == old(page)
    {
      if slot >= k || slotmap[slot][0] == 0xFF { return false; }
      slotmap := slotmap[slot := FREE_ROW];
      slotname := slotname[slot := slotname[slot][0 := 0]];
      slotpace := slotpace[slot := SLOTPACE_DFLT];
      SlotmapSave();
      return true;
    }

    /** Erases the page; the address types stay until the reset that follows. */
    method FactoryReset()
      requires Valid()
      modifies this
      ensures page == ERASED && Valid()
      ensures Ram() == Boot(ERASED, chip, k).(types := old(slottype))
    {
      page := ERASED;
      assert page[..4][0] == page[0] == 0xFF;
      SlotmapLoad();
    }

    /** Power off and on: only the page survives. */
    method Reboot()
      requires Valid()
      modifies this
      ensures page == old(page) && Ram() == Boot(page, chip, k)
      ensures old(Synced()) ==> (Ram() == old(Ram()) <==> MacsKeep(old(slotmac), chip))
    {
      ghost var t := Ram();
      if Synced() { RestoresIff(page, t, chip, k); }
      slottype := seq(k, _ => 0);
      SlotmapLoad();
    }
  }
}
