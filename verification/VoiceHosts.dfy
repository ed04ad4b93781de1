/** The names of voice servers, the local address of each, and the text that names one flow of one endpoint. */
module VoiceHosts {
  import opened Bytes
  import opened Text
  import opened WebTx

  predicate Digit(c: char) { '0' <= c <= '9' }

  predicate Label(c: char) { Digit(c) || 'a' <= c <= 'z' || c == '-' }

  /** ts-<digits>.<region>.ivao.aero */
  predicate SupportedHost(h: string)
  {
    && |h| >= 3 && h[..3] == "ts-"
    && exists i :: 3 < i < |h| && HostParts(h, i)
  }

  predicate HostParts(h: string, dot: nat)
    requires 3 < dot < |h|
  {
    && h[dot] == '.' && (forall k :: 3 <= k < dot ==> Digit(h[k]))
    && |h| - dot > 11 && h[|h| - 10..] == ".ivao.aero" && (forall k :: dot < k < |h| - 10 ==> Label(h[k]))
  }

  function HostOf(value: string): (host: string)
  {
    Lower(Trim(value))
  }

  /** A host name in any letter case, with any white space around it, is that host. */
  lemma HostInAnyCase(value: string, name: string, from: nat)
    requires Inside(value, name, from) && name != "" && !Space(name[0]) && !Space(name[|name| - 1])
    ensures HostOf(value) == Lower(name)
  {
    hide Inside;
    TrimFindsIt(value, name, from);
  }

  /** Exactly the names of the form "ts-" digits "." region ".ivao.aero". */
  lemma SupportedHostForm(h: string)
    ensures SupportedHost(h) <==> exists digits: string, region: string :: NamesHost(h, digits, region)
  {
    if SupportedHost(h) {
      var dot :| 3 < dot < |h| && HostParts(h, dot);
      var digits, region := h[3..dot], h[dot + 1..|h| - 10];
      PartsOfHost(h, dot);
      assert NamesHost(h, digits, region);
    }
    forall digits: string, region: string | NamesHost(h, digits, region)
      ensures SupportedHost(h)
    {
      HostOfParts(h, digits, region);
      assert HostParts(h, 3 + |digits|);
    }
  }

  ghost predicate NamesHost(h: string, digits: string, region: string)
  {
    && h == "ts-" + digits + "." + region + ".ivao.aero"
    && digits != "" && (forall i :: 0 <= i < |digits| ==> '0' <= digits[i] <= '9')
    && region != ""
    && (forall i :: 0 <= i < |region| ==> '0' <= region[i] <= '9' || 'a' <= region[i] <= 'z' || region[i] == '-')
  }

  lemma PartsOfHost(h: string, dot: nat)
    requires |h| >= 3 && h[..3] == "ts-" && 3 < dot < |h| && HostParts(h, dot)
    ensures NamesHost(h, h[3..dot], h[dot + 1..|h| - 10])
  {
    assert h == h[..3] + h[3..dot] + [h[dot]] + h[dot + 1..|h| - 10] + h[|h| - 10..];
  }

  lemma HostOfParts(h: string, digits: string, region: string)
    requires NamesHost(h, digits, region)
    ensures h[..3] == "ts-" && 3 < 3 + |digits| < |h| && HostParts(h, 3 + |digits|)
  {
    var dot := 3 + |digits|;
    assert h[3..dot] == digits && h[dot] == '.' && h[dot + 1..|h| - 10] == region && h[|h| - 10..] == ".ivao.aero";
    assert forall k :: 3 <= k < dot ==> h[k] == digits[k - 3];
    assert forall k :: dot < k < |h| - 10 ==> h[k] == region[k - dot - 1];
  }

  /** The number a decimal text stands for. */
  function Reads(s: string): (n: int)
  {
    if s == "" then 0 else 10 * Reads(s[..|s| - 1]) + (s[|s| - 1] as int - '0' as int)
  }

  lemma ReadsSnoc(s: string, c: char)
    ensures Reads(s + [c]) == 10 * Reads(s) + (c as int - '0' as int)
  {
    assert (s + [c])[..|s|] == s;
  }

  lemma DecimalReads(n: nat)
    requires n < 1000
    ensures Decimal(n) != "" && Reads(Decimal(n)) == n && (forall c :: c in Decimal(n) ==> '0' <= c <= '9')
  {
    hide Reads;
    var d := Decimal(n);
    ReadsNothing();
    ReadsSnoc("", d[0]);
    assert "" + [d[0]] == [d[0]];
    if n >= 10 {
      ReadsSnoc([d[0]], d[1]);
      assert [d[0]] + [d[1]] == [d[0], d[1]];
    }
    if n >= 100 {
      ReadsSnoc([d[0], d[1]], d[2]);
      assert [d[0], d[1]] + [d[2]] == d;
    } else if n >= 10 {
      assert d == [d[0], d[1]];
    } else {
      assert d == [d[0]];
    }
  }

  lemma ReadsNothing()
    ensures Reads("") == 0
  {}

  /** The four numbers of an address. */
  ghost predicate Dotted(a: string, o1: int, o2: int, o3: int)
  {
    exists x: string, y: string, z: string :: IsDotted(a, x, y, z, o1, o2, o3)
  }

  ghost predicate IsDotted(a: string, x: string, y: string, z: string, o1: int, o2: int, o3: int)
  {
    && a == "127." + x + "." + y + "." + z && Reads(x) == o1 && Reads(y) == o2 && Reads(z) == o3
    && '.' !in x && '.' !in y && '.' !in z
  }

  /** The address of a host is 127.x.y.z with x from 64 to 127 and z from 1 to 254, taken from the hash. */
  lemma AddressOfHash(h: Hash)
    ensures Dotted(LocalAddress(h), 64 + h.b0 % 64, h.b1, 1 + h.b2 % 254)
  {
    hide Decimal, Reads;
    DecimalReads(64 + h.b0 % 64);
    DecimalReads(h.b1);
    DecimalReads(1 + h.b2 % 254);
    assert IsDotted(LocalAddress(h), Decimal(64 + h.b0 % 64), Decimal(h.b1), Decimal(1 + h.b2 % 254),
                    64 + h.b0 % 64, h.b1, 1 + h.b2 % 254);
  }

  predicate SharesAddress(g: Hash, h: Hash)
  {
    g.b0 % 64 == h.b0 % 64 && g.b1 == h.b1 && g.b2 % 254 == h.b2 % 254
  }

  /** Two hosts get the same address exactly when their hashes agree in those three numbers. */
  lemma AddressesCollide(g: Hash, h: Hash)
    ensures LocalAddress(g) == LocalAddress(h) <==> SharesAddress(g, h)
  {
    hide Reads, Decimal, LocalAddress, IsDotted;
    AddressOfHash(g);
    AddressOfHash(h);
    var x: string, y: string, z: string :| IsDotted(LocalAddress(g), x, y, z, 64 + g.b0 % 64, g.b1, 1 + g.b2 % 254);
    var u: string, v: string, w: string :| IsDotted(LocalAddress(h), u, v, w, 64 + h.b0 % 64, h.b1, 1 + h.b2 % 254);
    if LocalAddress(g) == LocalAddress(h) {
      OneReading(LocalAddress(g), x, y, z, 64 + g.b0 % 64, g.b1, 1 + g.b2 % 254,
                 u, v, w, 64 + h.b0 % 64, h.b1, 1 + h.b2 % 254);
    }
    if g.b0 % 64 == h.b0 % 64 && g.b1 == h.b1 && g.b2 % 254 == h.b2 % 254 {
      SameNumbers(g, h);
    }
  }

  lemma SameNumbers(g: Hash, h: Hash)
    requires g.b0 % 64 == h.b0 % 64 && g.b1 == h.b1 && g.b2 % 254 == h.b2 % 254
    ensures LocalAddress(g) == LocalAddress(h)
  {
    hide Decimal;
  }

  lemma OneReading(a: string, x: string, y: string, z: string, o1: int, o2: int, o3: int,
                   u: string, v: string, w: string, p1: int, p2: int, p3: int)
    requires IsDotted(a, x, y, z, o1, o2, o3) && IsDotted(a, u, v, w, p1, p2, p3)
    ensures o1 == p1 && o2 == p2 && o3 == p3
  {
    hide Reads;
    assert a[4..] == x + "." + (y + "." + z) && a[4..] == u + "." + (v + "." + w);
    SameUpToDot(x, y + "." + z, u, v + "." + w);
    SameUpToDot(y, z, v, w);
  }

  lemma DotComesFirst(x: string, a: string, u: string, b: string)
    requires '.' !in u && |x| < |u|
    ensures x + "." + a != u + "." + b
  {
    var i := |x|;
    assert (x + "." + a)[i] == '.';
    assert (u + "." + b)[i] == u[i] && u[i] in u;
  }

  lemma SameUpToDot(x: string, a: string, u: string, b: string)
    requires '.' !in x && '.' !in u && x + "." + a == u + "." + b
    ensures x == u && a == b
  {
    if |x| < |u| { DotComesFirst(x, a, u, b); }
    else if |u| < |x| { DotComesFirst(u, b, x, a); }
    else {
      var s := x + "." + a;
      assert s[..|x|] == x && (u + "." + b)[..|u|] == u;
      assert s[|x| + 1..] == a && (u + "." + b)[|u| + 1..] == b;
    }
  }

  function Decimal(n: nat): (s: string)
    requires n < 1000
    ensures forall c :: c in s ==> Digit(c)
  {
    var digit := (d: nat) requires d < 10 => '0' + d as char;
    if n < 10 then [digit(n)] else if n < 100 then [digit(n / 10), digit(n % 10)]
    else [digit(n / 100), digit(n / 10 % 10), digit(n % 10)]
  }

  datatype Hash = Hash(b0: byte, b1: byte, b2: byte)  // the first bytes of the SHA-256 of a host

  function LocalAddress(h: Hash): (a: string)
    ensures forall c :: c in a ==> Digit(c) || c == '.'
  {
    "127." + Decimal(64 + h.b0 % 64) + "." + Decimal(h.b1) + "." + Decimal(1 + h.b2 % 254)
  }

  function Scoped(key: ScopedKey): (s: string) { key.address + "/" + key.flow }

  lemma ShorterAddressDiffers(a: ScopedKey, b: ScopedKey)
    requires '/' !in b.address && |a.address| < |b.address|
    ensures Scoped(a) != Scoped(b)
  {
    var i := |a.address|;
    assert Scoped(a)[i] == '/' && Scoped(b)[i] == b.address[i] && b.address[i] in b.address;
  }

  /** The text address/flow names one flow of one endpoint: addresses have no slash. */
  lemma ScopedTextIsUnique(a: ScopedKey, b: ScopedKey)
    requires '/' !in a.address && '/' !in b.address
    ensures Scoped(a) == Scoped(b) <==> a == b
  {
    if |a.address| < |b.address| { ShorterAddressDiffers(a, b); }
    else if |b.address| < |a.address| { ShorterAddressDiffers(b, a); }
    else if Scoped(a) == Scoped(b) {
      var n := |a.address|;
      assert Scoped(a)[..n] == a.address && Scoped(b)[..n] == b.address;
      assert Scoped(a)[n + 1..] == a.flow && Scoped(b)[n + 1..] == b.flow;
    }
  }
}
