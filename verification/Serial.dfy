/**
 * The serial number that vSphere derives from a VM's UUID (pkg/vsphere/vm.go). An Agent reports it as
 * its own, so the Agent/VM match rests on this function being injective. One char stands for one byte.
 */
module Serial {

  const PREFIX := "VMware-"

  function Strip(uuid: string): string {
    if uuid == [] then []
    else Strip(uuid[..|uuid| - 1]) + if uuid[|uuid| - 1] != '-' then [uuid[|uuid| - 1]] else []
  }

  /** Where each character goes: pairs at 3i and 3i+1, a separator at 3i+2, a dash after the eighth pair. */
  function Layout(clean: string): string
    requires |clean| == 32
  {
    seq(47, j requires 0 <= j < 47 =>
          if j % 3 == 2 then (if j == 23 then '-' else ' ') else clean[2 * (j / 3) + j % 3])
  }

  function SerialNumber(uuid: string): string {
    var clean := Strip(uuid);
    if |clean| == 32 then PREFIX + Layout(clean) else ""
  }

  /** UUIDToVMwareSerialNumber: filter, space out in pairs, then splice the dash in. */
  method UUIDToVMwareSerialNumber(uuid: string) returns (serial: string)
    ensures serial == SerialNumber(uuid)
  {
    if uuid == "" {
      return "";
    }
    var clean := "";
    for k := 0 to |uuid|
      invariant clean == Strip(uuid[..k])
    {
      assert uuid[..k + 1][..k] == uuid[..k];
      if uuid[k] != '-' {
        clean := clean + [uuid[k]];
      }
    }
    assert uuid[..|uuid|] == uuid;
    if |clean| != 32 {
      return "";
    }
    var spaced := SpaceOut(clean);
    if |spaced| >= 24 {
      spaced := spaced[..23] + "-" + spaced[24..];
    }
    assert spaced == Layout(clean);
    serial := PREFIX + spaced;
  }

  method SpaceOut(clean: string) returns (spaced: string)
    requires |clean| == 32
    ensures |spaced| == 47
    ensures forall j :: 0 <= j < 47 ==> spaced[j] == if j % 3 == 2 then ' ' else clean[2 * (j / 3) + j % 3]
  {
    spaced := "";
    var i := 0;
    while i < |clean|
      invariant 0 <= i <= 32 && i % 2 == 0
      invariant |spaced| == if i == 0 then 0 else 3 * (i / 2) - 1
      invariant forall j :: 0 <= j < |spaced| ==> spaced[j] == if j % 3 == 2 then ' ' else clean[2 * (j / 3) + j % 3]
    {
      if i > 0 {
        spaced := spaced + " ";
      }
      spaced := spaced + clean[i..i + 2];
      i := i + 2;
    }
  }

  /* ---------- the codec ---------- */

  /** Reads the 32 characters back from their places. */
  function Decode(serial: string): string
    requires |serial| == 54
  {
    seq(32, i requires 0 <= i < 32 => serial[7 + 3 * (i / 2) + i % 2])
  }

  /** Every UUID with 32 non-dash bytes is recovered; every other text yields the empty serial. */
  lemma SerialRoundTrip(uuid: string)
    ensures |Strip(uuid)| != 32 <==> SerialNumber(uuid) == ""
    ensures |Strip(uuid)| == 32 ==>
              |SerialNumber(uuid)| == 54 && PREFIX <= SerialNumber(uuid) && Decode(SerialNumber(uuid)) == Strip(uuid)
    ensures |Strip(uuid)| == 32 ==>
              forall i :: 0 <= i < 15 ==> SerialNumber(uuid)[7 + 3 * i + 2] == if i == 7 then '-' else ' '
  {
    if |Strip(uuid)| == 32 {
      LayoutRoundTrip(Strip(uuid));
    }
  }

  lemma LayoutAt(clean: string, j: nat)
    requires |clean| == 32 && j < 47
    ensures |PREFIX + Layout(clean)| == 54
    ensures (PREFIX + Layout(clean))[7 + j] ==
            if j % 3 == 2 then (if j == 23 then '-' else ' ') else clean[2 * (j / 3) + j % 3]
  {
    var s := PREFIX + Layout(clean);
    assert s[7 + j] == Layout(clean)[j];
  }

  lemma LayoutRoundTrip(clean: string)
    requires |clean| == 32
    ensures |PREFIX + Layout(clean)| == 54 && Decode(PREFIX + Layout(clean)) == clean
    ensures forall i :: 0 <= i < 15 ==> (PREFIX + Layout(clean))[7 + 3 * i + 2] == if i == 7 then '-' else ' '
  {
    LayoutAt(clean, 0);
    DecodedPairs(clean, PREFIX + Layout(clean));
    forall i | 0 <= i < 15 ensures (PREFIX + Layout(clean))[7 + 3 * i + 2] == if i == 7 then '-' else ' ' {
      SeparatorPlace(i);
      LayoutAt(clean, 3 * i + 2);
    }
    hide Layout, Decode;
  }

  lemma DecodedPairs(clean: string, s: string)
    requires |clean| == 32 && s == PREFIX + Layout(clean) && |s| == 54
    ensures Decode(s) == clean
  {
    hide Layout;
    forall i | 0 <= i < 32 ensures Decode(s)[i] == clean[i] {
      PairPlace(i);
      LayoutAt(clean, 3 * (i / 2) + i % 2);
    }
  }

  lemma SeparatorPlace(i: nat)
    requires i < 15
    ensures (3 * i + 2) % 3 == 2 && 3 * i + 2 < 47
  {
  }

  lemma PairPlace(i: nat)
    requires i < 32
    ensures var j := 3 * (i / 2) + i % 2; j < 47 && j % 3 == i % 2 && 2 * (j / 3) + j % 3 == i
  {
  }

  /** Byte by byte: the prefix, sixteen pairs set apart by spaces, and the dash between the eighth and the ninth. */
  lemma SerialText(uuid: string)
    requires |Strip(uuid)| == 32
    ensures SerialNumber(uuid)[..7] == "VMware-"
    ensures forall p :: 0 <= p < 16 ==> SerialNumber(uuid)[7 + 3 * p..9 + 3 * p] == Strip(uuid)[2 * p..2 * p + 2]
    ensures forall p :: 0 <= p < 15 ==> SerialNumber(uuid)[9 + 3 * p] == if p == 7 then '-' else ' '
    ensures forall c :: c in Strip(uuid) <==> c in uuid && c != '-'
  {
    var clean := Strip(uuid);
    assert SerialNumber(uuid) == PREFIX + Layout(clean);
    LayoutAt(clean, 0);
    StripKeeps(uuid);
    hide Strip, Layout, SerialNumber;
    forall p | 0 <= p < 16
      ensures (PREFIX + Layout(clean))[7 + 3 * p..9 + 3 * p] == clean[2 * p..2 * p + 2]
    {
      PairText(clean, p);
    }
    forall p | 0 <= p < 15 ensures (PREFIX + Layout(clean))[9 + 3 * p] == if p == 7 then '-' else ' ' {
      SeparatorPlace(p);
      LayoutAt(clean, 3 * p + 2);
    }
  }

  lemma PairText(clean: string, p: nat)
    requires |clean| == 32 && p < 16
    ensures |PREFIX + Layout(clean)| == 54
    ensures (PREFIX + Layout(clean))[7 + 3 * p..9 + 3 * p] == clean[2 * p..2 * p + 2]
  {
    hide Layout;
    LayoutAt(clean, 0);
    PairPlace(2 * p);
    PairPlace(2 * p + 1);
    LayoutAt(clean, 3 * p);
    LayoutAt(clean, 3 * p + 1);
  }

  lemma {:induction false} StripKeeps(uuid: string)
    ensures forall c :: c in Strip(uuid) <==> c in uuid && c != '-'
  {
    if uuid != [] {
      StripKeeps(uuid[..|uuid| - 1]);
      assert uuid == uuid[..|uuid| - 1] + [uuid[|uuid| - 1]];
    }
  }

  /** Two UUIDs share a non-empty serial exactly when they differ in dashes only. */
  lemma SerialSharedIff(u: string, v: string)
    requires SerialNumber(u) != ""
    ensures SerialNumber(u) == SerialNumber(v) <==> Strip(u) == Strip(v)
  {
    SerialRoundTrip(u);
    SerialRoundTrip(v);
  }

  /** The text form of section 4 of RFC 9562: 8-4-4-4-12 with dashes between the groups only. */
  predicate Canonical(uuid: string) {
    && |uuid| == 36
    && forall i :: 0 <= i < 36 ==> (uuid[i] == '-' <==> i in {8, 13, 18, 23})
  }

  lemma {:induction false} StripConcat(a: string, b: string)
    ensures Strip(a + b) == Strip(a) + Strip(b)
  {
    if b == [] {
      assert a + b == a;
    } else {
      StripConcat(a, b[..|b| - 1]);
      assert (a + b)[..|a + b| - 1] == a + b[..|b| - 1];
    }
  }

  lemma {:induction false} StripDashFree(a: string)
    requires '-' !in a
    ensures Strip(a) == a
  {
    if a != [] {
      StripDashFree(a[..|a| - 1]);
    }
  }

  lemma StripDash(d: string)
    requires |d| == 1 && d[0] == '-'
    ensures Strip(d) == []
  {
    assert d[..0] == [];
  }

  lemma StripThree(a: string, b: string, c: string)
    ensures Strip(a + b + c) == Strip(a) + Strip(b) + Strip(c)
  {
    StripConcat(a + b, c);
    StripConcat(a, b);
  }

  /** Peel off a group and the dash at position i that follows it. */
  lemma StripGroup(u: string, from: nat, i: nat)
    requires from <= i < |u|
    requires '-' !in u[from..i] && u[i] == '-'
    ensures Strip(u[from..]) == u[from..i] + Strip(u[i + 1..])
  {
    var group, dash, rest := u[from..i], u[i..i + 1], u[i + 1..];
    calc {
      Strip(u[from..]);
      { assert u[from..] == group + dash + rest; }
      Strip(group + dash + rest);
      { StripThree(group, dash, rest); }
      Strip(group) + Strip(dash) + Strip(rest);
      { StripDashFree(group); StripDash(dash); }
      group + [] + Strip(rest);
      group + Strip(rest);
    }
  }

  lemma CanonicalStrip(u: string)
    requires Canonical(u)
    ensures Strip(u) == u[..8] + u[9..13] + u[14..18] + u[19..23] + u[24..]
  {
    assert u[0..] == u;
    StripGroup(u, 0, 8);
    StripGroup(u, 9, 13);
    StripGroup(u, 14, 18);
    StripGroup(u, 19, 23);
    StripDashFree(u[24..]);
    assert u[0..8] == u[..8];
    assert u[..8] + (u[9..13] + (u[14..18] + (u[19..23] + u[24..]))) ==
           u[..8] + u[9..13] + u[14..18] + u[19..23] + u[24..];
  }

  /** On canonical text the serial is never empty and determines the UUID. */
  lemma SerialInjective(u: string, v: string)
    requires Canonical(u) && Canonical(v)
    ensures SerialNumber(u) != ""
    ensures SerialNumber(u) == SerialNumber(v) ==> u == v
  {
    CanonicalStrip(u);
    CanonicalStrip(v);
    SerialRoundTrip(u);
    if SerialNumber(u) == SerialNumber(v) {
      SerialSharedIff(u, v);
      SameGroups(u, v);
    }
  }

  lemma SameGroups(u: string, v: string)
    requires Canonical(u) && Canonical(v)
    requires u[..8] + u[9..13] + u[14..18] + u[19..23] + u[24..] == v[..8] + v[9..13] + v[14..18] + v[19..23] + v[24..]
    ensures u == v
  {
    var s := u[..8] + u[9..13] + u[14..18] + u[19..23] + u[24..];
    var t := v[..8] + v[9..13] + v[14..18] + v[19..23] + v[24..];
    forall i | 0 <= i < 36 ensures u[i] == v[i] {
      if i !in {8, 13, 18, 23} {
        var dashes := if i < 8 then 0 else if i < 13 then 1 else if i < 18 then 2 else if i < 23 then 3 else 4;
        var j := i - dashes;
        assert u[i] == s[j] && v[i] == t[j];
      }
    }
  }
}
