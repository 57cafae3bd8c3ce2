/** Netgraph node names: which strings name a node, and which are read as node IDs. */
module NgNames {
  import opened Common
  import opened Hexadecimal

  const NG_NODESIZ := 32
  const ULONG_MAX := 0xffff_ffff_ffff_ffff

  /** End of the run of hexadecimal digits that starts at i. */
  function RunEnd(s: string, i: nat): (e: nat)
    requires i <= |s|
    ensures i <= e <= |s| && forall k :: i <= k < e ==> IsXDigit(s[k])
    ensures e < |s| ==> !IsXDigit(s[e])
    decreases |s| - i
  {
    if i < |s| && IsXDigit(s[i]) then RunEnd(s, i + 1) else i
  }

  /** strtoul(s + i, &end, 16) at a hexadecimal digit: an optional 0x prefix, saturation at ULONG_MAX. */
  function Strtoul(s: string, i: nat): (r: (nat, nat))
    requires i < |s| && IsXDigit(s[i])
    ensures i < r.1 <= |s| && r.0 <= ULONG_MAX
  {
    var start := if i + 2 < |s| && s[i] == '0' && (s[i + 1] == 'x' || s[i + 1] == 'X') && IsXDigit(s[i + 2]) then i + 2 else i;
    var end := RunEnd(s, start);
    assert forall k :: 0 <= k < end - start ==> s[start..end][k] == s[start + k];
    var v := HexValue(s[start..end]);
    (if v > ULONG_MAX then ULONG_MAX else v, end)
  }

  /** ng_decodeidname: the ID a bracketed name stands for, or 0. The value is cut to 32 bits. */
  function DecodeId(name: string): (id: nat)
    ensures id < TWO32
  {
    var len := |name|;
    if len < 3 || name[0] != '[' || name[len - 1] != ']' || !IsXDigit(name[1]) then 0 else
    var (val, end) := Strtoul(name, 1);
    if end != len - 1 || val == ULONG_MAX || val == 0 then 0 else val % TWO32
  }

  /** The scan at the head of ng_name_node, over a C string: the first NUL, dot or colon among the first NG_NODESIZ
      characters must be the terminating NUL, and not the first character. */
  method CheckName(name: string) returns (ok: bool)
    requires forall k :: 0 <= k < |name| ==> name[k] != '\0'
    ensures ok <==> 1 <= |name| <= NG_NODESIZ && forall k :: 0 <= k < |name| ==> name[k] != '.' && name[k] != ':'
  {
    var i := 0;
    while i < NG_NODESIZ && i < |name| && name[i] != '.' && name[i] != ':'
      invariant i <= |name| && i <= NG_NODESIZ
      invariant forall k :: 0 <= k < i ==> name[k] != '.' && name[k] != ':'
    {
      i := i + 1;
    }
    ok := i != 0 && i == |name|;
  }

  /** What ng_name_node takes for a name. */
  predicate Accepted(name: string) {
    && 1 <= |name| <= NG_NODESIZ
    && (forall k :: 0 <= k < |name| ==> name[k] != '.' && name[k] != ':')
    && DecodeId(name) == 0
  }

  /** strlcpy into nd_name. */
  function Stored(name: string): (r: string)
    ensures |r| < NG_NODESIZ && r <= name
  {
    if |name| < NG_NODESIZ then name else name[..NG_NODESIZ - 1]
  }

  // ---- What reads as an ID ----

  /** A bracketed hexadecimal numeral, with or without 0x. */
  ghost predicate Writes(name: string, h: string) {
    && h != "" && (forall k :: 0 <= k < |h| ==> IsXDigit(h[k]))
    && (name == "[" + h + "]" || name == "[0x" + h + "]" || name == "[0X" + h + "]")
  }

  /** Exactly the bracketed numerals between 0 and ULONG_MAX that do not vanish in 32 bits read as IDs, and as which. */
  lemma DecodeIdIff(name: string, id: nat)
    requires id != 0
    ensures DecodeId(name) == id
       <==> exists h :: Writes(name, h) && 0 < HexValue(h) < ULONG_MAX && HexValue(h) % TWO32 == id
  {
    if h :| Writes(name, h) && 0 < HexValue(h) < ULONG_MAX && HexValue(h) % TWO32 == id {
      NumeralDecoded(name, h);
    }
    if DecodeId(name) == id {
      var h := DecodedNumeral(name);
      NumeralDecoded(name, h);
      assert Writes(name, h) && 0 < HexValue(h) < ULONG_MAX && HexValue(h) % TWO32 == id;
    }
  }

  lemma NumeralDecoded(name: string, h: string)
    requires Writes(name, h)
    ensures DecodeId(name) == if 0 < HexValue(h) < ULONG_MAX then HexValue(h) % TWO32 else 0
  {
    var len := |name|;
    assert name[0] == '[' && name[len - 1] == ']' && IsXDigit(name[1]);
    NumeralRead(name, h);
    hide HexValue, Strtoul, IsXDigit;
  }

  lemma NumeralRead(name: string, h: string)
    requires Writes(name, h)
    ensures IsXDigit(name[1])
    ensures Strtoul(name, 1) == (if HexValue(h) > ULONG_MAX then ULONG_MAX else HexValue(h), |name| - 1)
  {
    var len, start := |name|, if name == "[" + h + "]" then 1 else 3;
    assert forall k :: 0 <= k < |h| ==> name[start + k] == h[k];
    assert name[start..len - 1] == h && name[len - 1] == ']';
    RunUnique(name, start, len - 1);
    hide HexValue, RunEnd;
    if start == 1 {
      assert name[2] != 'x' && name[2] != 'X';
    } else {
      assert name[1] == '0' && name[3] == h[0];
    }
  }

  lemma DecodedNumeral(name: string) returns (h: string)
    requires DecodeId(name) != 0
    ensures Writes(name, h)
  {
    var len := |name|;
    var start := if 3 < len && name[1] == '0' && (name[2] == 'x' || name[2] == 'X') && IsXDigit(name[3]) then 3 else 1;
    assert RunEnd(name, start) == len - 1;
    h := name[start..len - 1];
    assert start == 1 ==> name == "[" + h + "]";
    assert start == 3 && name[2] == 'x' ==> name == "[0x" + h + "]";
    assert start == 3 && name[2] == 'X' ==> name == "[0X" + h + "]";
  }

  // ---- Names of 32 characters ----

  /** Two different names of 32 characters that are both acceptable, and of which a node keeps the same. */
  lemma LongNamesAccepted()
    ensures exists a, b :: Accepted(a) && Accepted(b) && a != b && |a| == |b| == NG_NODESIZ && Stored(a) == Stored(b)
  {
    var n := seq(NG_NODESIZ - 1, _ => 'n');
    var a, b := n + "a", n + "b";
    assert a[0] == b[0] == 'n' && a[|n|] != b[|n|];
    assert a[..|n|] == n && b[..|n|] == n;
    assert Accepted(a) && Accepted(b);
  }

  /** An acceptable name of 32 characters, the kept part of which reads as an ID. No shorter name is like that. */
  lemma LongNameIsId()
    ensures exists a :: Accepted(a) && |a| == NG_NODESIZ && DecodeId(Stored(a)) == 1
    ensures forall a :: Accepted(a) && DecodeId(Stored(a)) != 0 ==> |a| == NG_NODESIZ
  {
    var h := Zeros(28) + "1";
    OneWithZeros();
    var kept := "[" + h + "]";
    NumeralDecoded(kept, h);
    hide HexValue;
    var a := kept + "n";
    assert a[..NG_NODESIZ - 1] == kept;
    AcceptedTail(kept);
    assert Accepted(a) && DecodeId(Stored(a)) == 1;
  }

  lemma OneWithZeros()
    ensures forall k :: 0 <= k < 29 ==> IsXDigit((Zeros(28) + "1")[k])
    ensures HexValue(Zeros(28) + "1") == 1
  {
    var h := Zeros(28) + "1";
    HexShift("", 28);
    assert "" + Zeros(28) == Zeros(28) && h[..28] == Zeros(28) && h[28] == '1';
  }

  /** A letter behind a bracket keeps a name from reading as an ID. */
  lemma AcceptedTail(kept: string)
    requires |kept| == NG_NODESIZ - 1 && forall k :: 0 <= k < |kept| ==> kept[k] != '.' && kept[k] != ':'
    ensures Accepted(kept + "n")
  {
    var a := kept + "n";
    assert a[|a| - 1] == 'n';
  }

  /** "[" + hex + "]" reads back as the same ID, for every non-zero 32-bit ID. */
  lemma DecodePrinted(id: nat)
    requires 0 < id < TWO32
    ensures DecodeId("[" + Hex(id) + "]") == id
  {
    var h := Hex(id);
    var s := "[" + h + "]";
    HexValueOfHex(id);
    assert s[|s| - 1] == ']' && s[0] == '[' && s[1] == h[0];
    assert forall k :: 1 <= k < |s| - 1 ==> s[k] == h[k - 1];
    assert s[1..|s| - 1] == h;
    assert RunEnd(s, 1) == |s| - 1 by { RunUnique(s, 1, |s| - 1); }
    assert !(1 + 2 < |s| && (s[2] == 'x' || s[2] == 'X')) by {
      if 1 + 2 < |s| { assert s[2] == h[1]; }
    }
  }

  lemma {:induction false} RunUnique(s: string, i: nat, e: nat)
    requires i <= e < |s| && (forall k :: i <= k < e ==> IsXDigit(s[k])) && !IsXDigit(s[e])
    ensures RunEnd(s, i) == e
    decreases e - i
  {
    if i < e { RunUnique(s, i + 1, e); }
  }
}
