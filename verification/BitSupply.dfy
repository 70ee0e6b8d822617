/**
 How the bit buffer is kept supplied, apart from what the bits are: bytes read, bits buffered, and
 zero bits made up once the input has run out.
 */
module BitSupply {
  import opened Common

  /** `pad` counts all zero bits made up so far; `hit` says that sixteen of them were added by the decoder itself. */
  datatype Supply = Supply(pos: nat, bits: nat, pad: nat, hit: bool)

  /** Bits taken as a number, or a code word of this length. */
  datatype Pull = Take(k: nat) | Sym(len: nat)

  function OneByte(size: nat, r: Supply): Supply {
    if r.pos < size then r.(pos := r.pos + 1, bits := r.bits + 8) else r.(bits := r.bits + 8, pad := r.pad + 8)
  }

  /** Whole bytes until more than 24 bits are buffered. */
  function Refilled(size: nat, r: Supply): (f: Supply)
    ensures f.bits > 24 && f.hit == r.hit
    decreases 40 - r.bits
  {
    if r.bits > 24 then r else Refilled(size, OneByte(size, r))
  }

  /** A code word needs sixteen bits in view; they are made up once, and the second time there is no symbol. */
  function Viewed(size: nat, r: Supply): Option<Supply> {
    if r.bits >= 16 then Some(r)
    else if r.pos < size then Some(Refilled(size, r))
    else if r.hit then None
    else Some(r.(bits := r.bits + 16, pad := r.pad + 16, hit := true))
  }

  function Pulled(size: nat, r: Supply, p: Pull): Option<Supply> {
    match p
    case Take(k) =>
      var f := if r.bits < k then Refilled(size, r) else r;
      if f.bits < k then None else Some(f.(bits := f.bits - k))
    case Sym(len) =>
      match Viewed(size, r)
      case None => None
      case Some(f) => if f.bits < len then None else Some(f.(bits := f.bits - len))
  }

  lemma SymPulled(size: nat, r: Supply, f: Supply, len: nat)
    requires Viewed(size, r) == Some(f) && len <= f.bits
    ensures Pulled(size, r, Sym(len)) == Some(f.(bits := f.bits - len))
  {
  }

  function PulledAll(size: nat, r: Supply, ps: seq<Pull>): Option<Supply> {
    if ps == [] then Some(r)
    else
      match PulledAll(size, r, ps[..|ps| - 1])
      case None => None
      case Some(f) => Pulled(size, f, ps[|ps| - 1])
  }

  function Width(p: Pull): nat {
    match p
    case Take(k) => k
    case Sym(len) => len
  }

  function TotalWidth(ps: seq<Pull>): nat {
    if ps == [] then 0 else TotalWidth(ps[..|ps| - 1]) + Width(ps[|ps| - 1])
  }

  predicate Modest(ps: seq<Pull>) {
    forall i :: 0 <= i < |ps| ==> Width(ps[i]) <= 16
  }

  /** The check made at the end of a compressed block. */
  predicate Unspent(r: Supply) {
    !(r.hit && r.bits < 16)
  }

  /** A supply of `size` input bytes of whose zero-extended stream `used` bits were taken. */
  ghost predicate Sound(size: nat, r: Supply, used: nat) {
    && r.pos <= size && r.bits <= 32 && r.bits + used == 8 * r.pos + r.pad && r.pad % 8 == 0
    && (r.pad > 0 ==> r.pos == size) && (r.hit ==> r.pad >= 16)
  }

  /** Zero bits made up by refilling rather than by the decoder's own sixteen. */
  function Refill(r: Supply): int {
    r.pad - if r.hit then 16 else 0
  }

  lemma {:induction false} RefilledSound(size: nat, r: Supply, used: nat)
    requires Sound(size, r, used)
    ensures Sound(size, Refilled(size, r), used)
    ensures r.pos < size ==> Refill(Refilled(size, r)) <= 24
    ensures r.pos < size || r.bits > 24 || Refill(Refilled(size, r)) <= Refill(r) + 32
    ensures Refill(r) <= Refill(Refilled(size, r)) && r.pos <= Refilled(size, r).pos
    decreases 40 - r.bits
  {
    if r.bits <= 24 {
      RefilledSound(size, OneByte(size, r), used);
    }
  }

  lemma ViewedSound(size: nat, r: Supply, used: nat)
    requires Sound(size, r, used)
    ensures var f := Viewed(size, r);
            if f.Some? then Sound(size, f.value, used) && f.value.bits >= 16
            else r.hit && r.bits < 16 && used > 8 * size
  {
    RefilledSound(size, r, used);
    hide Refilled;
  }

  lemma PulledSound(size: nat, r: Supply, used: nat, p: Pull)
    requires Sound(size, r, used) && Width(p) <= 16
    ensures var f := Pulled(size, r, p);
            if f.Some? then Sound(size, f.value, used + Width(p))
            else p.Sym? && Viewed(size, r).None? && used > 8 * size
  {
    hide Refilled, Viewed;
    RefilledSound(size, r, used);
    ViewedSound(size, r, used);
  }

  lemma {:induction false} PulledAllSound(size: nat, r: Supply, used: nat, ps: seq<Pull>)
    requires Sound(size, r, used) && Modest(ps)
    ensures var f := PulledAll(size, r, ps);
            if f.Some? then Sound(size, f.value, used + TotalWidth(ps)) else used + TotalWidth(ps) > 8 * size
  {
    if ps != [] {
      var init := ps[..|ps| - 1];
      PulledAllSound(size, r, used, init);
      if PulledAll(size, r, init).Some? {
        PulledSound(size, PulledAll(size, r, init).value, used + TotalWidth(init), ps[|ps| - 1]);
      }
    }
  }

  lemma {:induction false} PulledAllConcat(size: nat, r: Supply, a: seq<Pull>, b: seq<Pull>)
    ensures PulledAll(size, r, a + b) ==
            match PulledAll(size, r, a) case None => None case Some(f) => PulledAll(size, f, b)
    ensures TotalWidth(a + b) == TotalWidth(a) + TotalWidth(b)
  {
    if b == [] {
      assert a + b == a;
    } else {
      assert (a + b)[..|a + b| - 1] == a + b[..|b| - 1];
      PulledAllConcat(size, r, a, b[..|b| - 1]);
    }
  }

  // ---- what the end-of-input check is worth

  /** What was taken lies within the input exactly if no more zero bits were made up than are still buffered. */
  lemma WithinExactlyWhen(size: nat, r: Supply, used: nat)
    requires Sound(size, r, used)
    ensures used <= 8 * size <==> r.pad <= r.bits
  {
  }

  /** The check refuses exactly if the sixteen were added and more zero bits were taken than refilling made up. */
  lemma CheckRefusesExactlyWhen(size: nat, r: Supply, used: nat)
    requires Sound(size, r, used)
    ensures !Unspent(r) <==> r.hit && used > 8 * size + Refill(r)
    ensures !Unspent(r) ==> used > 8 * size
    ensures Unspent(r) && used > 8 * size ==> used <= 8 * size + Refill(r)
  {
  }

  /** So it is exact if nothing was made up by refilling, which is so whenever four bytes of input follow. */
  lemma FourBytesFollow(size: nat, r: Supply, used: nat)
    requires Sound(size, r, used)
    ensures Refill(r) == 0 ==> (Unspent(r) <==> !(r.hit && used > 8 * size)) && (Unspent(r) ==> used <= 8 * size)
    ensures used + 32 <= 8 * size ==> r.pad == 0 && !r.hit && Unspent(r)
    ensures r.pos < size ==> r.pad == 0 && used <= 8 * size
  {
  }

  /** No number is taken that the buffer cannot supply once the input is out. */
  predicate NoLateTake(size: nat, r: Supply, ps: seq<Pull>) {
    ps == [] ||
    (NoLateTake(size, r, ps[..|ps| - 1]) &&
     var f := PulledAll(size, r, ps[..|ps| - 1]);
     f.Some? && (ps[|ps| - 1].Take? ==> f.value.bits >= ps[|ps| - 1].k || f.value.pos < size))
  }

  /** Then at most three whole bytes are ever made up by refilling, and an accepted block ends at most that far out. */
  lemma {:induction false} ThreeBytesAtMost(size: nat, r: Supply, used: nat, ps: seq<Pull>)
    requires Sound(size, r, used) && Modest(ps) && NoLateTake(size, r, ps) && Refill(r) <= 24
    requires PulledAll(size, r, ps).Some?
    ensures var f := PulledAll(size, r, ps).value;
            Refill(f) <= 24 && (Unspent(f) ==> used + TotalWidth(ps) <= 8 * (size + 3))
  {
    PulledAllSound(size, r, used, ps);
    if ps != [] {
      var init, p := ps[..|ps| - 1], ps[|ps| - 1];
      ThreeBytesAtMost(size, r, used, init);
      var f := PulledAll(size, r, init).value;
      PulledAllSound(size, r, used, init);
      RefilledSound(size, f, used + TotalWidth(init));
    }
  }
}
