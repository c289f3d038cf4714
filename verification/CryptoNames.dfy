/** Names of encryption algorithms, which tell the order of their ciphers, and the modes they are used in. */
module CryptoNames {
  import opened CryptoSpec
  import opened CryptoBuffers

  function CipherName(cipher: nat): string {
    if cipher == AES then "AES"
    else if cipher == SERPENT then "Serpent"
    else if cipher == TWOFISH then "Twofish"
    else if cipher == BLOWFISH then "Blowfish"
    else if cipher == CAST then "CAST5"
    else "Triple DES"
  }

  /** The names of ciphers j to 0, with hyphens between them. */
  function NameFrom(ea: nat, j: nat): string
    decreases j
  {
    if j == 0 then CipherName(CipherAt(ea, 0)) else CipherName(CipherAt(ea, j)) + "-" + NameFrom(ea, j - 1)
  }

  /** The name of an algorithm begins with its last cipher. */
  function Name(ea: nat): string
    requires IsAlgorithm(ea)
  {
    NameFrom(ea, CipherCount(ea) - 1)
  }

  method EAGetName(ea: nat) returns (buf: string)
    requires IsAlgorithm(ea)
    ensures buf == Name(ea)
  {
    hide Algorithm; hide CipherName; hide CipherAt; hide CipherCount;
    CiphersDiffer(ea);
    ghost var j: nat := CipherCount(ea) - 1;
    var i := EAGetLastCipher(ea);
    buf := CipherName(i);
    i := EAGetPreviousCipher(ea, i);
    while i != 0
      invariant j < CipherCount(ea) && i == (if j == 0 then 0 else CipherAt(ea, j - 1))
      invariant buf + (if j == 0 then "" else "-" + NameFrom(ea, j - 1)) == Name(ea)
      decreases j
    {
      j := j - 1;
      buf := buf + "-";
      buf := buf + CipherName(i);
      i := EAGetPreviousCipher(ea, i);
    }
  }

  lemma CiphersDiffer(ea: nat)
    requires IsAlgorithm(ea)
    ensures CipherCount(ea) >= 1 && forall j: nat :: j < CipherCount(ea) ==> CipherAt(ea, j) != 0
  {
    hide Algorithm;
    ListShape(ea);
  }

  method EAGetNext(previous: nat) returns (id: nat)
    requires IsAlgorithm(previous)
    ensures id == if previous < 13 then previous + 1 else 0
  {
    id := previous + 1;
    if Algorithm(id).ciphers[0] == 0 { id := 0; }
  }

  /** The algorithm of a name, zero if there is none. */
  method EAGetByName(name: string) returns (ea: nat)
    ensures ea == 0 || (IsAlgorithm(ea) && Name(ea) == name)
    ensures ea == 0 <==> forall e: nat :: IsAlgorithm(e) ==> Name(e) != name
  {
    hide Name; hide Algorithm;
    ea := 1;
    while true
      invariant IsAlgorithm(ea) && forall e: nat :: 1 <= e < ea ==> Name(e) != name
      decreases 13 - ea
    {
      var n := EAGetName(ea);
      if n == name { return; }
      ea := EAGetNext(ea);
      if ea == 0 { return; }
    }
  }

  lemma UpToThree(ea: nat)
    requires IsAlgorithm(ea)
    ensures var a, b, c := CipherName(CipherAt(ea, 0)), CipherName(CipherAt(ea, 1)), CipherName(CipherAt(ea, 2));
            && 1 <= CipherCount(ea) <= 3
            && Name(ea) == if CipherCount(ea) == 1 then a else if CipherCount(ea) == 2 then b + "-" + a else c + "-" + (b + "-" + a)
  {
    assert 1 <= CipherCount(ea) <= 3;
    hide Algorithm; hide CipherName; hide CipherAt; hide CipherCount;
    assert NameFrom(ea, 0) == CipherName(CipherAt(ea, 0));
    assert NameFrom(ea, 1) == CipherName(CipherAt(ea, 1)) + "-" + NameFrom(ea, 0);
  }

  lemma Hyphens()
    ensures "AES" + "-" + "Twofish" == "AES-Twofish" && "Serpent" + "-" + "AES" == "Serpent-AES"
    ensures "Twofish" + "-" + "Serpent" == "Twofish-Serpent" && "AES" + "-" + "Blowfish" == "AES-Blowfish"
    ensures "Twofish" + "-" + "AES" == "Twofish-AES" && "Blowfish" + "-" + "Serpent" == "Blowfish-Serpent"
    ensures "AES" + "-" + "Twofish-Serpent" == "AES-Twofish-Serpent" && "Serpent" + "-" + "Twofish-AES" == "Serpent-Twofish-AES"
    ensures "AES" + "-" + "Blowfish-Serpent" == "AES-Blowfish-Serpent"
  {
  }

  /** Main result on the order of ciphers: the last cipher of a name is the one that enciphers first. */
  lemma Names(ea: nat)
    requires IsAlgorithm(ea)
    ensures Name(ea) == match ea
                        case 1 => "AES"
                        case 2 => "Serpent"
                        case 3 => "Twofish"
                        case 4 => "AES-Twofish"
                        case 5 => "AES-Twofish-Serpent"
                        case 6 => "Serpent-AES"
                        case 7 => "Serpent-Twofish-AES"
                        case 8 => "Twofish-Serpent"
                        case 9 => "Blowfish"
                        case 10 => "CAST5"
                        case 11 => "Triple DES"
                        case 12 => "AES-Blowfish"
                        case _ => "AES-Blowfish-Serpent"
  {
    UpToThree(ea);
    Hyphens();
    hide Name;
  }

  /** A name belongs to one algorithm: what EAGetName has written, EAGetByName reads. */
  lemma NamesDiffer(ea: nat, other: nat)
    requires IsAlgorithm(ea) && IsAlgorithm(other) && Name(ea) == Name(other)
    ensures ea == other
  {
    Names(ea);
    Names(other);
    hide Name;
    assert |Name(ea)| == |Name(other)| && Name(ea)[0] == Name(other)[0];
  }

  /** Main result on modes: what ciphers an algorithm needs for each. */
  lemma ModesOf(ea: nat)
    requires IsAlgorithm(ea)
    ensures var wide := forall j: nat :: j < CipherCount(ea) ==> BlockSize(CipherAt(ea, j)) == 16;
            var alike := forall j: nat :: j < CipherCount(ea) ==> BlockSize(CipherAt(ea, j)) == BlockSize(CipherAt(ea, 0));
            && (XTS in Algorithm(ea).modes <==> wide)
            && (LRW in Algorithm(ea).modes <==> alike)
            && (CBC in Algorithm(ea).modes <==> CipherCount(ea) == 1)
            && (OUTER_CBC in Algorithm(ea).modes <==> alike && CipherCount(ea) > 1)
            && (INNER_CBC in Algorithm(ea).modes <==> !alike)
  {
    FirstThree(ea);
    hide Algorithm; hide CipherAt; hide CipherCount; hide BlockSize;
    var a, b, c := BlockSize(CipherAt(ea, 0)), BlockSize(CipherAt(ea, 1)), BlockSize(CipherAt(ea, 2));
    forall j: nat | j < CipherCount(ea) ensures BlockSize(CipherAt(ea, j)) == if j == 0 then a else if j == 1 then b else c { }
  }

  /** The sizes of blocks, and the modes that go with them. */
  lemma FirstThree(ea: nat)
    requires IsAlgorithm(ea)
    ensures var n, a, b, c := CipherCount(ea), BlockSize(CipherAt(ea, 0)), BlockSize(CipherAt(ea, 1)), BlockSize(CipherAt(ea, 2));
            var wide := a == 16 && (n > 1 ==> b == 16) && (n > 2 ==> c == 16);
            var alike := (n > 1 ==> b == a) && (n > 2 ==> c == a);
            && 1 <= n <= 3
            && (XTS in Algorithm(ea).modes <==> wide)
            && (LRW in Algorithm(ea).modes <==> alike)
            && (CBC in Algorithm(ea).modes <==> n == 1)
            && (OUTER_CBC in Algorithm(ea).modes <==> alike && n > 1)
            && (INNER_CBC in Algorithm(ea).modes <==> !alike)
  {
  }
}
