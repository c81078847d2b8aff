/** The transform registries the probe names its observations from, and their inversion. */
module IkeNames {
  import opened Bytes

  type Table = seq<(uint16, string)>

  const ENCRYPTION_NAMES: Table := [
    (3, "ENCR_3DES"), (6, "ENCR_CAST"), (7, "ENCR_BLOWFISH"), (11, "ENCR_NULL"),
    (12, "ENCR_AES_CBC"), (13, "ENCR_AES_CTR"), (14, "ENCR_AES_CCM_8"),
    (15, "ENCR_AES_CCM_12"), (16, "ENCR_AES_CCM_16"), (18, "ENCR_AES_GCM_8"),
    (19, "ENCR_AES_GCM_12"), (20, "ENCR_AES_GCM_16"), (23, "ENCR_CAMELLIA_CBC"),
    (28, "ENCR_CHACHA20_POLY1305")
  ]

  const PRF_NAMES: Table := [
    (1, "PRF_HMAC_MD5"), (2, "PRF_HMAC_SHA1"), (4, "PRF_AES128_XCBC"),
    (5, "PRF_HMAC_SHA2_256"), (6, "PRF_HMAC_SHA2_384"), (7, "PRF_HMAC_SHA2_512")
  ]

  const INTEGRITY_NAMES: Table := [
    (0, "NONE"), (1, "AUTH_HMAC_MD5_96"), (2, "AUTH_HMAC_SHA1_96"), (5, "AUTH_AES_XCBC_96"),
    (12, "AUTH_HMAC_SHA2_256_128"), (13, "AUTH_HMAC_SHA2_384_192"),
    (14, "AUTH_HMAC_SHA2_512_256")
  ]

  const DH_GROUP_NAMES: Table := [
    (1, "MODP_768"), (2, "MODP_1024"), (5, "MODP_1536"), (14, "MODP_2048"),
    (15, "MODP_3072"), (16, "MODP_4096"), (17, "MODP_6144"), (18, "MODP_8192"),
    (19, "ECP_256"), (20, "ECP_384"), (21, "ECP_521"), (31, "CURVE25519"), (32, "CURVE448"),
    (35, "ML_KEM_512"), (36, "ML_KEM_768"), (37, "ML_KEM_1024")
  ]

  const INVALID_KE_PREFIX := "INVALID_KE_PAYLOAD:"

  function Digit(d: nat): char
    requires d < 10
  {
    ['0', '1', '2', '3', '4', '5', '6', '7', '8', '9'][d]
  }

  function Decimal(n: nat): string {
    if n < 10 then [Digit(n)] else Decimal(n / 10) + [Digit(n % 10)]
  }

  function Lookup(table: Table, id: uint16): Option<string> {
    if table == [] then None
    else if table[0].0 == id then Some(table[0].1)
    else Lookup(table[1..], id)
  }

  function NameIn(table: Table, prefix: string, id: uint16): string {
    match Lookup(table, id)
    case Some(name) => name
    case None => prefix + Decimal(id)
  }

  function EncryptionName(id: uint16): string { NameIn(ENCRYPTION_NAMES, "ENCR_", id) }

  function PrfName(id: uint16): string { NameIn(PRF_NAMES, "PRF_", id) }

  function IntegrityName(id: uint16): string { NameIn(INTEGRITY_NAMES, "INTEG_", id) }

  function GroupName(id: uint16): string { NameIn(DH_GROUP_NAMES, "GROUP_", id) }

  function NotifyName(kind: uint16): string { "NOTIFY_" + Decimal(kind) }

  /** The first code the table gives this name to. */
  function CodeOf(table: Table, name: string): Option<uint16> {
    if table == [] then None
    else if table[0].1 == name then Some(table[0].0)
    else CodeOf(table[1..], name)
  }

  /** What follows the first colon. */
  function AfterColon(s: string): Option<string> {
    if s == [] then None else if s[0] == ':' then Some(s[1..]) else AfterColon(s[1..])
  }

  predicate DistinctNames(table: Table) {
    forall i, j :: 0 <= i < j < |table| ==> table[i].1 != table[j].1
  }

  lemma {:induction false} CodeInvertsLookup(table: Table, id: uint16)
    requires DistinctNames(table) && Lookup(table, id).Some?
    ensures CodeOf(table, Lookup(table, id).value) == Some(id)
    ensures exists i :: 0 <= i < |table| && table[i].1 == Lookup(table, id).value
  {
    if table[0].0 != id {
      CodeInvertsLookup(table[1..], id);
      var i :| 0 <= i < |table[1..]| && table[1..][i].1 == Lookup(table[1..], id).value;
      assert table[i + 1].1 == Lookup(table, id).value;
    }
  }

  lemma {:induction false} InTable(table: Table, i: nat)
    requires i < |table|
    ensures Lookup(table, table[i].0).Some?
  {
    if i > 0 {
      InTable(table[1..], i - 1);
    }
  }

  lemma {:induction false} NoCodeOutside(table: Table, name: string)
    requires forall i :: 0 <= i < |table| ==> table[i].1 != name
    ensures CodeOf(table, name) == None
  {
    if table != [] {
      NoCodeOutside(table[1..], name);
    }
  }

  lemma GroupNamesDistinct()
    ensures DistinctNames(DH_GROUP_NAMES)
    ensures forall i :: 0 <= i < |DH_GROUP_NAMES| ==> |DH_GROUP_NAMES[i].1| > 0 && DH_GROUP_NAMES[i].1[0] != 'G'
  {
  }

  /** Looking a group up by the name it was given finds the group, and nothing for the names
      made up for groups outside the table. */
  lemma CodeInvertsName(id: uint16)
    ensures CodeOf(DH_GROUP_NAMES, GroupName(id)) == if Lookup(DH_GROUP_NAMES, id).Some? then Some(id) else None
  {
    GroupNamesDistinct();
    if Lookup(DH_GROUP_NAMES, id).Some? {
      CodeInvertsLookup(DH_GROUP_NAMES, id);
    } else {
      assert GroupName(id)[0] == 'G';
      NoCodeOutside(DH_GROUP_NAMES, GroupName(id));
    }
  }

  lemma {:induction false} AfterColonSkips(a: string, b: string)
    requires ':' !in a
    ensures AfterColon(a + ":" + b) == Some(b)
  {
    if a == [] {
      assert a + ":" + b == ":" + b;
    } else {
      AfterColonSkips(a[1..], b);
      assert (a + ":" + b)[1..] == a[1..] + ":" + b;
    }
  }
}
