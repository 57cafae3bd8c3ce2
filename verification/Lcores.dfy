/** Which processor cores the processes of one F-Stack instance run on: the lcore mask of the configuration, and the
    check that every core a port names is in it. */
module Lcores {
  import opened Bits
  import opened Common
  import opened Hexadecimal

  const RTE_MAX_LCORE := 128

  predicate IsBlank(c: char) { c == ' ' || c == '\t' }

  /** The numeral inside the mask string: leading blanks, then one 0x or 0X, then trailing blanks are dropped. */
  function Body(mask: string): (r: string) {
    BeforeBlanks(Unprefixed(AfterBlanks(mask)))
  }

  function Unprefixed(s: string): (r: string) {
    if |s| >= 2 && s[0] == '0' && (s[1] == 'x' || s[1] == 'X') then s[2..] else s
  }

  function AfterBlanks(s: string): (r: string)
    ensures |r| <= |s| && r == s[|s| - |r|..] && (forall i :: 0 <= i < |s| - |r| ==> IsBlank(s[i]))
    ensures r != [] ==> !IsBlank(r[0])
  {
    if s != [] && IsBlank(s[0]) then AfterBlanks(s[1..]) else s
  }

  function BeforeBlanks(s: string): (r: string)
    ensures |r| <= |s| && r == s[..|r|] && (forall i :: |r| <= i < |s| ==> IsBlank(s[i]))
    ensures r != [] ==> !IsBlank(r[|r| - 1])
  {
    if s != [] && IsBlank(s[|s| - 1]) then BeforeBlanks(s[..|s| - 1]) else s
  }

  lemma {:induction false} SkipBlanks(a: string, s: string)
    requires forall i :: 0 <= i < |a| ==> IsBlank(a[i])
    ensures AfterBlanks(a + s) == AfterBlanks(s)
  {
    if a == [] { assert a + s == s; } else { assert (a + s)[1..] == a[1..] + s; SkipBlanks(a[1..], s); }
  }

  lemma {:induction false} DropBlanks(s: string, b: string)
    requires forall i :: 0 <= i < |b| ==> IsBlank(b[i])
    ensures BeforeBlanks(s + b) == BeforeBlanks(s)
  {
    if b == [] {
      assert s + b == s;
    } else {
      assert (s + b)[..|s + b| - 1] == s + b[..|b| - 1];
      DropBlanks(s, b[..|b| - 1]);
    }
  }

  predicate Blanks(s: string) { forall i :: 0 <= i < |s| ==> s[i] == ' ' || s[i] == '\t' }

  /** A numeral between blanks, with or without 0x or 0X before it, is what is left. */
  lemma BodyOf(a: string, h: string, b: string)
    requires Blanks(a) && Blanks(b) && h != "" && forall i :: 0 <= i < |h| ==> IsXDigit(h[i])
    ensures Body(a + (h + b)) == h && Body(a + (['0', 'x'] + (h + b))) == h && Body(a + (['0', 'X'] + (h + b))) == h
  {
    hide AfterBlanks, BeforeBlanks, Body;
    NotPrefixed(h, b);
    Stripped(a, h + b, h, b);
    Stripped(a, ['0', 'x'] + (h + b), h, b);
    Stripped(a, ['0', 'X'] + (h + b), h, b);
  }

  lemma NotPrefixed(h: string, b: string)
    requires Blanks(b) && h != "" && forall i :: 0 <= i < |h| ==> IsXDigit(h[i])
    ensures Unprefixed(h + b) == h + b
  {
    var s := h + b;
    if |s| >= 2 { assert s[1] == if |h| >= 2 then h[1] else b[0]; }
  }

  lemma Stripped(a: string, s: string, h: string, b: string)
    requires Blanks(a) && Blanks(b) && h != "" && forall i :: 0 <= i < |h| ==> IsXDigit(h[i])
    requires s != "" && IsXDigit(s[0]) && Unprefixed(s) == h + b
    ensures Body(a + s) == h
  {
    hide Unprefixed, AfterBlanks, BeforeBlanks;
    assert AfterBlanks(a + s) == s by { SkipBlanks(a, s); NoBlanks(s); }
    assert BeforeBlanks(h + b) == h by { DropBlanks(h, b); NoBlanksAfter(h); }
  }

  lemma NoBlanks(s: string)
    requires s != "" && IsXDigit(s[0])
    ensures AfterBlanks(s) == s
  {
  }

  lemma NoBlanksAfter(s: string)
    requires s != "" && IsXDigit(s[|s| - 1])
    ensures BeforeBlanks(s) == s
  {
  }

  /** A numeral for a set of lcores. */
  predicate IsMask(s: string) {
    s != "" && (forall i :: 0 <= i < |s| ==> IsXDigit(s[i])) && HexValue(s) < Pow2(RTE_MAX_LCORE)
  }

  /** The set bits of v below n, in increasing order. */
  function SetBits(v: nat, n: nat): (r: seq<nat>) {
    if n == 0 then [] else SetBits(v, n - 1) + if Bit(v, n - 1) then [n - 1] else []
  }

  ghost predicate Increasing(l: seq<nat>) {
    forall i, j :: 0 <= i < j < |l| ==> l[i] < l[j]
  }

  lemma {:induction false} SetBitsExact(v: nat, n: nat)
    ensures Increasing(SetBits(v, n))
    ensures forall k: nat :: k in SetBits(v, n) <==> k < n && Bit(v, k)
  {
    if n != 0 {
      SetBitsExact(v, n - 1);
      var l := SetBits(v, n - 1);
      assert forall i :: 0 <= i < |l| ==> l[i] in l;
    }
  }

  datatype Procs = Procs(lcores: seq<nat>, procMask: string)

  /** parse_lcore_mask: fails exactly when the string is no mask or names no lcore for this process; otherwise the
      processes' lcores are the set bits of the mask in increasing order and the process's own mask has the one bit of
      its lcore. */
  method ParseLcoreMask(mask: string, procId: nat) returns (r: Option<Procs>)
    ensures r.Some? <==> IsMask(Body(mask)) && procId < |SetBits(HexValue(Body(mask)), RTE_MAX_LCORE)|
    ensures r.Some? ==> r.value.lcores == SetBits(HexValue(Body(mask)), RTE_MAX_LCORE)
    ensures r.Some? ==> (forall i :: 0 <= i < |r.value.procMask| ==> IsXDigit(r.value.procMask[i]))
                        && HexValue(r.value.procMask) == Pow2(r.value.lcores[procId])
  {
    var body := Strip(mask);
    hide Body, Bit, HexValue, Pow2;
    if body == "" {
      return None;
    }
    var lcores, procMask: string, idx, i := [], "", 0, |body| - 1;
    while i >= 0 && idx < RTE_MAX_LCORE
      invariant -1 <= i < |body| && idx == 4 * (|body| - 1 - i) && idx <= RTE_MAX_LCORE
      invariant forall k :: i < k < |body| ==> IsXDigit(body[k])
      invariant lcores == Found(body, idx) && MaskOk(procMask, lcores, procId)
      decreases i
    {
      if !IsXDigit(body[i]) {
        return None;
      }
      lcores, procMask := OneDigit(body, i, procId, lcores, procMask);
      idx, i := idx + 4, i - 1;
    }
    while i >= 0
      invariant -1 <= i < |body|
      invariant forall k :: i < k < |body| ==> IsXDigit(body[k])
      invariant forall k :: i < k < |body| - 32 ==> body[k] == '0'
    {
      if body[i] != '0' {
        HighDigit(body, i);
        return None;
      }
      i := i - 1;
    }
    Accept(body, idx);
    if procId >= |lcores| {
      return None;
    }
    r := Some(Procs(lcores, procMask));
  }

  /** The strip loops at the head of parse_lcore_mask. */
  method Strip(mask: string) returns (body: string)
    ensures body == Body(mask)
  {
    var start := 0;
    while start < |mask| && IsBlank(mask[start])
      invariant start <= |mask| && AfterBlanks(mask) == AfterBlanks(mask[start..])
    {
      assert mask[start..][1..] == mask[start + 1..];
      start := start + 1;
    }
    body := mask[start..];
    if |body| >= 2 && body[0] == '0' && (body[1] == 'x' || body[1] == 'X') {
      body := body[2..];
    }
    hide AfterBlanks, BeforeBlanks;
    body := StripEnd(body);
  }

  method StripEnd(s: string) returns (r: string)
    ensures r == BeforeBlanks(s)
  {
    var end := |s|;
    assert s[..end] == s;
    while end > 0 && IsBlank(s[end - 1])
      invariant 0 <= end <= |s| && BeforeBlanks(s) == BeforeBlanks(s[..end])
    {
      assert s[..end][..end - 1] == s[..end - 1];
      end := end - 1;
    }
    r := s[..end];
  }

  /** Bit k of the numeral, digit by digit. */
  predicate DigitsBit(body: string, k: nat) {
    k / 4 < |body| && IsXDigit(body[|body| - 1 - k / 4]) && Bit(XVal(body[|body| - 1 - k / 4]), k % 4)
  }

  function Found(body: string, n: nat): (r: seq<nat>) {
    if n == 0 then [] else Found(body, n - 1) + if DigitsBit(body, n - 1) then [n - 1] else []
  }

  ghost predicate MaskOk(procMask: string, lcores: seq<nat>, procId: nat) {
    procId < |lcores| ==>
      (forall i :: 0 <= i < |procMask| ==> IsXDigit(procMask[i])) && HexValue(procMask) == Pow2(lcores[procId])
  }

  /** The inner loop: the four bits of one digit. */
  method OneDigit(body: string, i: nat, procId: nat, lcores0: seq<nat>, procMask0: string)
    returns (lcores: seq<nat>, procMask: string)
    requires i < |body| && IsXDigit(body[i])
    requires lcores0 == Found(body, 4 * (|body| - 1 - i)) && MaskOk(procMask0, lcores0, procId)
    ensures lcores == Found(body, 4 * (|body| - i)) && MaskOk(procMask, lcores, procId)
  {
    hide Bit, HexValue, Pow2, Hex;
    lcores, procMask := lcores0, procMask0;
    var val, idx := XVal(body[i]), 4 * (|body| - 1 - i);
    for j := 0 to 4
      invariant idx == 4 * (|body| - 1 - i) + j && lcores == Found(body, idx) && MaskOk(procMask, lcores, procId)
    {
      AndBit(val, j);
      assert idx / 4 == |body| - 1 - i && idx % 4 == j;
      if And(Pow2(j), val) != 0 {
        AndCommutes(val, Pow2(j));
        if procId == |lcores| {
          OneBit(idx);
          procMask := Hex(Pow2(idx % 4)) + Zeros(idx / 4);
        }
        lcores := lcores + [idx];
      } else {
        AndCommutes(val, Pow2(j));
      }
      idx := idx + 1;
    }
  }

  lemma {:induction false} AndCommutes(x: nat, y: nat)
    ensures And(x, y) == And(y, x)
  {
    if x != 0 && y != 0 { AndCommutes(x / 2, y / 2); }
  }

  /** The numeral written into proc_mask has one bit, the process's lcore. */
  lemma OneBit(idx: nat)
    ensures HexValue(Hex(Pow2(idx % 4)) + Zeros(idx / 4)) == Pow2(idx)
  {
    HexValueOfHex(Pow2(idx % 4));
    HexShift(Hex(Pow2(idx % 4)), idx / 4);
    Pow2Split(idx % 4, 4 * (idx / 4));
    assert idx % 4 + 4 * (idx / 4) == idx;
  }

  lemma HighDigit(body: string, i: nat)
    requires i < |body| - 32 && body[i] != '0'
    ensures !IsMask(body)
  {
    if forall k :: 0 <= k < |body| ==> IsXDigit(body[k]) {
      HexBelow(body, 32);
    }
  }

  lemma Accept(body: string, n: nat)
    requires body != "" && forall k :: 0 <= k < |body| ==> IsXDigit(body[k])
    requires n <= RTE_MAX_LCORE && (n == RTE_MAX_LCORE || n == 4 * |body|)
    requires forall k :: 0 <= k < |body| - 32 ==> body[k] == '0'
    ensures IsMask(body) && Found(body, n) == SetBits(HexValue(body), RTE_MAX_LCORE)
  {
    HexBelow(body, 32);
    hide DigitsBit, Bit, HexValue;
    DigitsOf(body);
    PastEnd(body);
    SameBits(body, HexValue(body), n);
    NoMore(HexValue(body), n, RTE_MAX_LCORE);
  }

  lemma DigitsOf(body: string)
    requires forall k :: 0 <= k < |body| ==> IsXDigit(body[k])
    ensures forall k: nat :: DigitsBit(body, k) == Bit(HexValue(body), k)
  {
    forall k: nat ensures DigitsBit(body, k) == Bit(HexValue(body), k) { HexBit(body, k); }
  }

  lemma PastEnd(body: string)
    ensures forall k: nat :: 4 * |body| <= k ==> !DigitsBit(body, k)
  {
  }

  lemma {:induction false} SameBits(body: string, v: nat, n: nat)
    requires forall k: nat :: DigitsBit(body, k) == Bit(v, k)
    ensures Found(body, n) == SetBits(v, n)
  {
    hide DigitsBit, Bit;
    if n != 0 { SameBits(body, v, n - 1); }
  }

  lemma {:induction false} NoMore(v: nat, m: nat, n: nat)
    requires m <= n && forall k: nat :: m <= k < n ==> !Bit(v, k)
    ensures SetBits(v, m) == SetBits(v, n)
  {
    hide Bit;
    if m < n { NoMore(v, m, n - 1); }
  }

  // ---- The check of the ports' lcore lists ----

  /** uint16_binary_search: a position of x in a[l..r], both ends included, or -1. */
  function BinarySearch(a: seq<nat>, l: int, r: int, x: nat): (k: int)
    requires Increasing(a) && 0 <= l <= r + 1 <= |a|
    ensures k == -1 ==> forall i :: l <= i <= r ==> a[i] != x
    ensures k != -1 ==> l <= k <= r && a[k] == x
    decreases r - l + 1
  {
    if r >= l then
      var mid := l + (r - l) / 2;
      if a[mid] == x then mid
      else if a[mid] > x then BinarySearch(a, l, mid - 1, x)
      else BinarySearch(a, mid + 1, r, x)
    else -1
  }

  /** The lcore checks of ff_check_config for one port: every core of the list is some process's, and with KNI on, the
      primary process's core is in the list. */
  method CheckPort(lcoreList: seq<nat>, procLcore: seq<nat>, procId: nat, kni: bool, primary: bool) returns (ok: bool)
    requires Increasing(procLcore) && procId < |procLcore|
    ensures ok <==> (forall k :: 0 <= k < |lcoreList| ==> lcoreList[k] in procLcore)
                    && (kni && primary ==> procLcore[procId] in lcoreList)
  {
    for k := 0 to |lcoreList|
      invariant forall m :: 0 <= m < k ==> lcoreList[m] in procLcore
    {
      if BinarySearch(procLcore, 0, |procLcore| - 1, lcoreList[k]) < 0 {
        return false;
      }
    }
    if kni && primary {
      var found := false;
      for j := 0 to |lcoreList|
        invariant found <==> procLcore[procId] in lcoreList[..j]
      {
        if lcoreList[j] == procLcore[procId] {
          found := true;
        }
      }
      assert lcoreList[..|lcoreList|] == lcoreList;
      if !found {
        return false;
      }
    }
    ok := true;
  }
}
