/**
 * The keychain service of the app: where the fast-vault password and its
 * hint are stored for a vault, identified by the vault's ECDSA public key.
 */
module KeychainService {
  import opened Wrappers
  import opened StringExtension

  const ServiceName := "com.vultisig.wallet"

  /** `Keys`: the two kinds of keychain entry, each for one public key. */
  datatype Keys = FastPassword(pubKeyECDSA: string) | FastHint(pubKeyECDSA: string)
  {
    /** The per-kind part of the identifier. */
    function Key(): (k: string)
      ensures FastPassword? ==> HasPrefix(k, "fastPassword-") && k[13..] == pubKeyECDSA
      ensures FastHint? ==> HasPrefix(k, "fastHint-") && k[9..] == pubKeyECDSA
    {
      match this
      case FastPassword(pk) => "fastPassword-" + pk
      case FastHint(pk) => "fastHint-" + pk
    }

    /** `identifier`: the service name, a dot, then the per-kind key. */
    function Identifier(): (id: string)
      ensures HasPrefix(id, ServiceName + ".")
      ensures id[|ServiceName| + 1..] == Key()
    {
      ServiceName + "." + Key()
    }
  }

  /**
   * No two entries share an identifier: the password and the hint of a key
   * differ, and for one kind the identifier determines the public key.
   */
  lemma IdentifierInjective(k1: Keys, k2: Keys)
    ensures k1.Identifier() == k2.Identifier() ==> k1 == k2
  {
    if k1.Identifier() == k2.Identifier() {
      var n := |ServiceName| + 1;
      assert k1.Key() == k1.Identifier()[n..] == k2.Key();
      var a := k1.Key();
      KindLetter(k1);
      KindLetter(k2);
      if k1.FastPassword? && k2.FastPassword? {
        assert k1.pubKeyECDSA == a[|"fastPassword-"|..] == k2.pubKeyECDSA;
      } else if k1.FastHint? && k2.FastHint? {
        assert k1.pubKeyECDSA == a[|"fastHint-"|..] == k2.pubKeyECDSA;
      }
    }
  }

  /** The fifth character of the per-kind key tells the kinds apart. */
  lemma KindLetter(k: Keys)
    ensures |k.Key()| > 4 && k.Key()[4] == if k.FastPassword? then 'P' else 'H'
  {
  }

  /** The same public key gives different password and hint identifiers. */
  lemma PasswordAndHintDiffer(pubKeyECDSA: string)
    ensures FastPassword(pubKeyECDSA).Identifier() != FastHint(pubKeyECDSA).Identifier()
  {
    IdentifierInjective(FastPassword(pubKeyECDSA), FastHint(pubKeyECDSA));
  }

  /**
   * The keychain behind the service, reduced to its observable contents:
   * identifier to stored string. Storing nothing removes the entry.
   * The system keychain itself is not part of this model.
   */
  class Keychain {
    var items: map<string, string>

    constructor ()
      ensures items == map[]
    {
      items := map[];
    }

    function GetString(key: string): (r: Option<string>)
      reads this
      ensures r.Some? <==> key in items
      ensures r.Some? ==> r.value == items[key]
    {
      if key in items then Some(items[key]) else None
    }

    method SetString(value: Option<string>, key: string)
      modifies this
      ensures items == if value.Some? then old(items)[key := value.value] else old(items) - {key}
    {
      if value.Some? {
        items := items[key := value.value];
      } else {
        items := items - {key};
      }
    }
  }

  /** `DefaultKeychainService`: each getter and setter goes to the identifier of its kind. */
  class DefaultKeychainService {
    const keychain: Keychain

    constructor (keychain: Keychain)
      ensures this.keychain == keychain
    {
      this.keychain := keychain;
    }

    function GetFastPassword(pubKeyECDSA: string): (r: Option<string>)
      reads keychain
      ensures r == keychain.GetString(FastPassword(pubKeyECDSA).Identifier())
    {
      keychain.GetString(FastPassword(pubKeyECDSA).Identifier())
    }

    function GetFastHint(pubKeyECDSA: string): (r: Option<string>)
      reads keychain
      ensures r == keychain.GetString(FastHint(pubKeyECDSA).Identifier())
    {
      keychain.GetString(FastHint(pubKeyECDSA).Identifier())
    }

    /** Storing a password makes the getter return it, and leaves every hint and every other key's password as it was. */
    method SetFastPassword(fastPassword: Option<string>, pubKeyECDSA: string)
      modifies keychain
      ensures GetFastPassword(pubKeyECDSA) == fastPassword
      ensures forall pk :: GetFastHint(pk) == old(GetFastHint(pk))
      ensures forall pk :: pk != pubKeyECDSA ==> GetFastPassword(pk) == old(GetFastPassword(pk))
    {
      keychain.SetString(fastPassword, FastPassword(pubKeyECDSA).Identifier());
      forall pk
        ensures FastHint(pk).Identifier() != FastPassword(pubKeyECDSA).Identifier()
      {
        IdentifierInjective(FastHint(pk), FastPassword(pubKeyECDSA));
      }
      forall pk | pk != pubKeyECDSA
        ensures FastPassword(pk).Identifier() != FastPassword(pubKeyECDSA).Identifier()
      {
        IdentifierInjective(FastPassword(pk), FastPassword(pubKeyECDSA));
      }
    }

    /** Storing a hint makes the getter return it, and leaves every password and every other key's hint as it was. */
    method SetFastHint(fastHint: Option<string>, pubKeyECDSA: string)
      modifies keychain
      ensures GetFastHint(pubKeyECDSA) == fastHint
      ensures forall pk :: GetFastPassword(pk) == old(GetFastPassword(pk))
      ensures forall pk :: pk != pubKeyECDSA ==> GetFastHint(pk) == old(GetFastHint(pk))
    {
      keychain.SetString(fastHint, FastHint(pubKeyECDSA).Identifier());
      forall pk
        ensures FastPassword(pk).Identifier() != FastHint(pubKeyECDSA).Identifier()
      {
        IdentifierInjective(FastPassword(pk), FastHint(pubKeyECDSA));
      }
      forall pk | pk != pubKeyECDSA
        ensures FastHint(pk).Identifier() != FastHint(pubKeyECDSA).Identifier()
      {
        IdentifierInjective(FastHint(pk), FastHint(pubKeyECDSA));
      }
    }
  }
}
