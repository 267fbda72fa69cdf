/** SSH checks: the command allowlist and the scrubbing of key material from errors. */
module Ssh {
  import opened Redaction
  import opened Text
  import opened Wrappers

  const SSH_CONNECTIVITY_CHECK_COMMAND := "printf 'wara-ssh-ok\\n'"
  const DOCKER_VERSION_CHECK_COMMAND := "docker version --format '{{.Server.Version}}'"

  const PRIVATE_KEY_MARKER := "[redacted-private-key]"
  const PUBLIC_KEY_MARKER := "[redacted-public-key]"
  const PASSPHRASE_MARKER := "[redacted-private-key-passphrase]"
  const ERROR_LIMIT := 500

  datatype SshTarget = SshTarget(publicKey: string, privateKey: string, passphrase: Option<string>)

  method ValidateAllowedCommands(commands: seq<string>) returns (allowed: bool)
    ensures allowed <==> forall i | 0 <= i < |commands| ::
      || commands[i] == "printf 'wara-ssh-ok\\n'"
      || commands[i] == "docker version --format '{{.Server.Version}}'"
  {
    for i := 0 to |commands|
      invariant forall j | 0 <= j < i ::
        commands[j] == SSH_CONNECTIVITY_CHECK_COMMAND || commands[j] == DOCKER_VERSION_CHECK_COMMAND
    {
      if commands[i] != SSH_CONNECTIVITY_CHECK_COMMAND && commands[i] != DOCKER_VERSION_CHECK_COMMAND {
        return false;
      }
    }
    return true;
  }

  function Take(s: string, n: nat): string {
    if |s| <= n then s else s[..n]
  }

  /** The key material this target must not show. */
  ghost function Secrets(target: SshTarget): set<string> {
    {target.privateKey, target.publicKey} + (if target.passphrase.Some? then {target.passphrase.value} else {})
  }

  /** The message before it is cut. */
  function Scrubbed(error: string, target: SshTarget): string {
    var keysGone := Replace(Replace(error, target.privateKey, PRIVATE_KEY_MARKER), target.publicKey, PUBLIC_KEY_MARKER);
    match target.passphrase
    case None => keysGone
    case Some(p) => Replace(keysGone, p, PASSPHRASE_MARKER)
  }

  method RedactError(error: string, target: SshTarget) returns (result: string)
    ensures result == Take(Scrubbed(error, target), ERROR_LIMIT)
    ensures result <= Scrubbed(error, target)
    ensures |result| == if |Scrubbed(error, target)| <= 500 then |Scrubbed(error, target)| else 500
  {
    var redacted := Replace(error, target.privateKey, PRIVATE_KEY_MARKER);
    redacted := Replace(redacted, target.publicKey, PUBLIC_KEY_MARKER);
    if target.passphrase.Some? {
      redacted := Replace(redacted, target.passphrase.value, PASSPHRASE_MARKER);
    }
    result := Take(redacted, ERROR_LIMIT);
  }

  // ---------- which keys are never shown ----------

  /**
    * Safe in its own place: among the first characters its marker does not bring it back, and no
    * later marker brings it in.
    */
  ghost predicate PrivateKeySafe(key: string, limit: nat) {
    && !CanReturnWithin(key, PRIVATE_KEY_MARKER, limit)
    && !OverlapsWithin(key, PUBLIC_KEY_MARKER, limit)
    && !OverlapsWithin(key, PASSPHRASE_MARKER, limit)
  }

  ghost predicate PublicKeySafe(key: string, limit: nat) {
    !CanReturnWithin(key, PUBLIC_KEY_MARKER, limit) && !OverlapsWithin(key, PASSPHRASE_MARKER, limit)
  }

  ghost predicate PassphraseSafe(key: string, limit: nat) {
    !CanReturnWithin(key, PASSPHRASE_MARKER, limit)
  }

  ghost predicate Safe(target: SshTarget, key: string, limit: nat) {
    || (key == target.privateKey && PrivateKeySafe(key, limit))
    || (key == target.publicKey && PublicKeySafe(key, limit))
    || (target.passphrase == Some(key) && PassphraseSafe(key, limit))
  }

  /** The key occurs in the message once it is cut to its first `limit` characters. */
  ghost predicate Shows(error: string, target: SshTarget, key: string, limit: nat) {
    Occurs(Take(Scrubbed(error, target), limit), key)
  }

  lemma CutShowsIff(text: string, key: string, limit: nat)
    requires key != ""
    ensures Occurs(Take(text, limit), key) <==> Within(text, key, limit)
  {
    var cut := Take(text, limit);
    if i: nat :| OccursAt(cut, key, i) {
      assert cut[i..] <= text[i..];
      assert i + |key| <= |cut|;
      assert OccursAt(text, key, i);
    }
    if i: nat :| OccursAt(text, key, i) && i + |key| <= limit {
      assert i + |key| <= |text|;
      assert cut[i..][..|key|] == text[i..][..|key|];
      assert OccursAt(cut, key, i);
    }
  }

  /** What has gone from the first characters does not come back when the next key is replaced. */
  lemma NextMarker(text: string, key: string, other: string, next: string, marker: string, limit: nat)
    requires key != "" && marker != "" && !OverlapsWithin(key, marker, limit)
    requires !Within(text, key, limit)
    requires |marker| + |key| <= limit ==> !Occurs(text, key)
    ensures !Within(Replace(text, other, marker), key, limit)
    ensures |marker| <= |next| && |next| + |key| <= limit ==> !Occurs(Replace(text, other, marker), key)
  {
    hide Within, Occurs, Replace, OverlapsWithin, Overlaps;
    OtherMarkerKeepsBehind(text, other, marker, key, limit);
    if |marker| <= |next| && |next| + |key| <= limit {
      RoomForMarker(key, marker, limit);
      ReplaceKeepsOut(text, other, marker, key);
    }
  }

  /** What cannot return in time is gone from the first characters and, if there is room for a marker, altogether. */
  lemma OwnMarker(text: string, key: string, marker: string, next: string, limit: nat)
    requires key != "" && marker != "" && !CanReturnWithin(key, marker, limit)
    ensures !Within(Replace(text, key, marker), key, limit)
    ensures |marker| <= |next| + 1 && |next| + |key| <= limit ==> !Occurs(Replace(text, key, marker), key)
  {
    hide Within, Occurs, Replace, CanReturn, CanReturnWithin;
    ReplaceRemovesWithin(text, key, marker, limit);
    if |marker| <= |next| + 1 && |next| + |key| <= limit {
      RoomForMarker(key, marker, limit);
      ReplaceRemoves(text, key, marker);
    }
  }

  /** A safe key is not among the first characters of the message, for any cut and hence for none. */
  lemma ScrubbedHides(error: string, target: SshTarget, key: string, limit: nat)
    requires key != "" && Safe(target, key, limit)
    ensures !Shows(error, target, key, limit)
  {
    hide Replace, OverlapsWithin, Within, Occurs, CanReturnWithin;
    var first := Replace(error, target.privateKey, PRIVATE_KEY_MARKER);
    var second := Replace(first, target.publicKey, PUBLIC_KEY_MARKER);
    CutShowsIff(Scrubbed(error, target), key, limit);
    if key == target.privateKey && PrivateKeySafe(key, limit) {
      OwnMarker(error, key, PRIVATE_KEY_MARKER, PUBLIC_KEY_MARKER, limit);
      NextMarker(first, key, target.publicKey, PASSPHRASE_MARKER, PUBLIC_KEY_MARKER, limit);
      if target.passphrase.Some? {
        NextMarker(second, key, target.passphrase.value, "", PASSPHRASE_MARKER, limit);
      }
    } else if key == target.publicKey && PublicKeySafe(key, limit) {
      OwnMarker(first, key, PUBLIC_KEY_MARKER, PASSPHRASE_MARKER, limit);
      if target.passphrase.Some? {
        NextMarker(second, key, target.passphrase.value, "", PASSPHRASE_MARKER, limit);
      }
    } else {
      OwnMarker(second, key, PASSPHRASE_MARKER, "", limit);
    }
  }

  // ---------- servers that can be stored ----------

  predicate StorablePublicKey(key: string) {
    "ssh-" <= TrimLeading(key)
  }

  ghost predicate StorablePrivateKey(key: string) {
    Occurs(key, "PRIVATE KEY")
  }

  /** What is asked of a key pair before its server is stored. */
  ghost predicate Storable(target: SshTarget) {
    StorablePublicKey(target.publicKey) && StorablePrivateKey(target.privateKey)
  }

  ghost predicate ShowsStored(error: string, target: SshTarget, key: string, limit: nat) {
    Storable(target) && Shows(error, target, key, limit)
  }

  /** A key longer than the text changes nothing in it. */
  lemma TooLongToOccur(text: string, start: string, m: string) returns (key: string)
    ensures Replace(text, key, m) == text && key == start + Repeat('a', |text| + 1)
  {
    key := start + Repeat('a', |text| + 1);
    ShorterIsFree(text, key);
    NoMatchNoChange(text, key, m);
  }

  lemma UnusedPublicKey(text: string) returns (key: string)
    ensures Replace(text, key, PUBLIC_KEY_MARKER) == text && StorablePublicKey(key)
  {
    key := TooLongToOccur(text, "ssh-", PUBLIC_KEY_MARKER);
    assert key[0] == 's' && TrimLeading(key) == key;
  }

  lemma UnusedPrivateKey(text: string) returns (key: string)
    ensures Replace(text, key, PRIVATE_KEY_MARKER) == text && StorablePrivateKey(key)
  {
    key := TooLongToOccur(text, "PRIVATE KEY", PRIVATE_KEY_MARKER);
    assert OccursAt(key, "PRIVATE KEY", 0);
  }

  lemma {:induction false} BlanksAreTrimmed(c: char, n: nat, rest: string)
    requires IsWhitespace(c) && "ssh-" <= rest
    ensures StorablePublicKey(Repeat(c, n) + rest)
  {
    var key := Repeat(c, n) + rest;
    if n == 0 {
      assert key == rest && rest[0] == 's';
    } else {
      BlanksAreTrimmed(c, n - 1, rest);
      assert key[1..] == Repeat(c, n - 1) + rest;
    }
  }

  // ---------- exactly which keys are hidden ----------

  /** A target and a message that show an unsafe private key; the target can be stored if the key can. */
  lemma PrivateKeyShown(key: string, limit: nat) returns (error: string, target: SshTarget)
    requires key != "" && !PrivateKeySafe(key, limit)
    ensures target.privateKey == key && Shows(error, target, key, limit)
    ensures StorablePrivateKey(key) ==> Storable(target)
  {
    hide Replace, OverlapsWithin, Within, Occurs, CanReturnWithin, TrimLeading;
    if CanReturnWithin(key, PRIVATE_KEY_MARKER, limit) {
      error := ReturnsWithin(key, PRIVATE_KEY_MARKER, limit);
      var public := UnusedPublicKey(Replace(error, key, PRIVATE_KEY_MARKER));
      target := SshTarget(public, key, None);
    } else if OverlapsWithin(key, PUBLIC_KEY_MARKER, limit) {
      var public;
      error, public := ShownByPublicKey(key, limit);
      target := SshTarget(public, key, None);
    } else {
      NothingInEmpty(key);
      var text, passphrase, _ := OverlapLeaks(key, PASSPHRASE_MARKER, limit, "");
      error := text;
      NoMatchNoChange(error, key, PRIVATE_KEY_MARKER);
      var public := UnusedPublicKey(error);
      target := SshTarget(public, key, Some(passphrase));
    }
    CutShowsIff(Scrubbed(error, target), key, limit);
  }

  /** The marker of a public key, which is blanks around `ssh-` unless the key is a part of that. */
  lemma ShownByPublicKey(key: string, limit: nat) returns (error: string, public: string)
    requires key != "" && OverlapsWithin(key, PUBLIC_KEY_MARKER, limit)
    ensures Within(Replace(Replace(error, key, PRIVATE_KEY_MARKER), public, PUBLIC_KEY_MARKER), key, limit)
    ensures StorablePrivateKey(key) ==> StorablePublicKey(public)
  {
    hide Replace, OverlapsWithin, Within, Occurs, TrimLeading, StorablePublicKey;
    StorableIsLong(key);
    NothingInEmpty(key);
    var c, core := ' ', if Occurs("ssh-", key) then "" else "ssh-";
    error, public, c := OverlapLeaks(key, PUBLIC_KEY_MARKER, limit, core);
    NoMatchNoChange(error, key, PRIVATE_KEY_MARKER);
    if core == "ssh-" {
      assert public == Repeat(c, |key|) + (core + Repeat(c, |key|));
      BlanksAreTrimmed(c, |key|, core + Repeat(c, |key|));
    }
  }

  lemma StorableIsLong(key: string)
    ensures StorablePrivateKey(key) ==> !Occurs("ssh-", key)
  {
    if i: nat :| OccursAt(key, "PRIVATE KEY", i) {
      ShorterIsFree("ssh-", key);
    }
  }

  /**
    * A private key is hidden in the first `limit` characters of every message, whatever the other
    * keys, exactly when it is safe; the code keeps the first 500. For a key that can be stored this
    * is already so among the targets that can.
    */
  lemma PrivateKeyHiddenIff(key: string, limit: nat)
    requires key != ""
    ensures (forall error, target: SshTarget | target.privateKey == key :: !Shows(error, target, key, limit))
       <==> PrivateKeySafe(key, limit)
    ensures StorablePrivateKey(key) ==>
      ((forall error, target: SshTarget | target.privateKey == key :: !ShowsStored(error, target, key, limit))
       <==> PrivateKeySafe(key, limit))
  {
    hide Shows, PrivateKeySafe, Occurs, StorablePublicKey;
    if PrivateKeySafe(key, limit) {
      forall error, target: SshTarget | target.privateKey == key
        ensures !Shows(error, target, key, limit)
      {
        ScrubbedHides(error, target, key, limit);
      }
    } else {
      var error, target := PrivateKeyShown(key, limit);
      assert Shows(error, target, key, limit);
      assert Storable(target) ==> ShowsStored(error, target, key, limit);
    }
  }

  lemma PublicKeyShown(key: string, limit: nat) returns (error: string, target: SshTarget)
    requires key != "" && !PublicKeySafe(key, limit)
    ensures target.publicKey == key && StorablePrivateKey(target.privateKey) && Shows(error, target, key, limit)
  {
    hide Replace, OverlapsWithin, Within, Occurs, CanReturnWithin;
    var passphrase := None;
    if CanReturnWithin(key, PUBLIC_KEY_MARKER, limit) {
      error := ReturnsWithin(key, PUBLIC_KEY_MARKER, limit);
    } else {
      NothingInEmpty(key);
      var text, other, _ := OverlapLeaks(key, PASSPHRASE_MARKER, limit, "");
      error := text;
      NoMatchNoChange(error, key, PUBLIC_KEY_MARKER);
      passphrase := Some(other);
    }
    var private := UnusedPrivateKey(error);
    target := SshTarget(key, private, passphrase);
    CutShowsIff(Scrubbed(error, target), key, limit);
  }

  /** The same for a public key, which only the passphrase's marker follows. */
  lemma PublicKeyHiddenIff(key: string, limit: nat)
    requires key != ""
    ensures (forall error, target: SshTarget | target.publicKey == key :: !Shows(error, target, key, limit))
       <==> PublicKeySafe(key, limit)
    ensures StorablePublicKey(key) ==>
      ((forall error, target: SshTarget | target.publicKey == key :: !ShowsStored(error, target, key, limit))
       <==> PublicKeySafe(key, limit))
  {
    hide Shows, PublicKeySafe, Occurs, TrimLeading;
    if PublicKeySafe(key, limit) {
      forall error, target: SshTarget | target.publicKey == key
        ensures !Shows(error, target, key, limit)
      {
        ScrubbedHides(error, target, key, limit);
      }
    } else {
      var error, target := PublicKeyShown(key, limit);
      assert Shows(error, target, key, limit);
      assert Storable(target) ==> ShowsStored(error, target, key, limit);
    }
  }

  lemma PassphraseShown(key: string, limit: nat) returns (error: string, target: SshTarget)
    requires key != "" && !PassphraseSafe(key, limit)
    ensures target.passphrase == Some(key) && Storable(target) && Shows(error, target, key, limit)
  {
    hide Replace, Within, Occurs, CanReturnWithin, TrimLeading;
    error := ReturnsWithin(key, PASSPHRASE_MARKER, limit);
    var private := UnusedPrivateKey(error);
    var public := UnusedPublicKey(error);
    target := SshTarget(public, private, Some(key));
    CutShowsIff(Scrubbed(error, target), key, limit);
  }

  /** The passphrase is replaced last: it is hidden exactly when its own marker cannot bring it back in time. */
  lemma PassphraseHiddenIff(key: string, limit: nat)
    requires key != ""
    ensures (forall error, target: SshTarget | target.passphrase == Some(key) :: !Shows(error, target, key, limit))
       <==> PassphraseSafe(key, limit)
    ensures
      (forall error, target: SshTarget | target.passphrase == Some(key) :: !ShowsStored(error, target, key, limit))
      <==> PassphraseSafe(key, limit)
  {
    hide Shows, PassphraseSafe, Occurs, TrimLeading;
    if PassphraseSafe(key, limit) {
      forall error, target: SshTarget | target.passphrase == Some(key)
        ensures !Shows(error, target, key, limit)
      {
        ScrubbedHides(error, target, key, limit);
      }
    } else {
      var error, target := PassphraseShown(key, limit);
      assert Shows(error, target, key, limit);
      assert Storable(target) ==> ShowsStored(error, target, key, limit);
    }
  }

  /** A message that holds none of the keys is only cut, provided no key is empty. */
  lemma ScrubbedLeavesTheRest(error: string, target: SshTarget)
    requires forall key | key in Secrets(target) :: key != "" && !Occurs(error, key)
    ensures Scrubbed(error, target) == error
  {
    assert target.privateKey in Secrets(target) && target.publicKey in Secrets(target);
    NoMatchNoChange(error, target.privateKey, PRIVATE_KEY_MARKER);
    NoMatchNoChange(error, target.publicKey, PUBLIC_KEY_MARKER);
    if target.passphrase.Some? {
      assert target.passphrase.value in Secrets(target);
      NoMatchNoChange(error, target.passphrase.value, PASSPHRASE_MARKER);
    }
  }

  /** A key is replaced where it first occurs by the marker of its kind, in the order the code takes them. */
  lemma ScrubbedOnce(before: string, key: string, behind: string, target: SshTarget)
    requires key != "" && forall i: nat | i < |before| :: !OccursAt(before + key + behind, key, i)
    requires !Occurs(behind, key)
    ensures key == target.privateKey && target.publicKey == "" && target.passphrase == None
      ==> Scrubbed(before + key + behind, target)
          == Replace(before + "[redacted-private-key]" + behind, "", "[redacted-public-key]")
    ensures key == target.publicKey && !Occurs(before + key + behind, target.privateKey) && target.privateKey != ""
            && target.passphrase == None
      ==> Scrubbed(before + key + behind, target) == before + "[redacted-public-key]" + behind
    ensures target.passphrase == Some(key) && target.privateKey != "" && target.publicKey != ""
            && !Occurs(before + key + behind, target.privateKey) && !Occurs(before + key + behind, target.publicKey)
      ==> Scrubbed(before + key + behind, target) == before + "[redacted-private-key-passphrase]" + behind
    ensures key == target.privateKey && target.publicKey != "" && target.passphrase == None
            && !Occurs(before + "[redacted-private-key]" + behind, target.publicKey)
      ==> Scrubbed(before + key + behind, target) == before + "[redacted-private-key]" + behind
  {
    hide Replace, Occurs;
    var error := before + key + behind;
    if key == target.privateKey {
      ReplacedHere(before, key, behind, PRIVATE_KEY_MARKER);
      if target.publicKey != "" && !Occurs(before + PRIVATE_KEY_MARKER + behind, target.publicKey) {
        NoMatchNoChange(before + PRIVATE_KEY_MARKER + behind, target.publicKey, PUBLIC_KEY_MARKER);
      }
    }
    if target.privateKey != "" && !Occurs(error, target.privateKey) {
      NoMatchNoChange(error, target.privateKey, PRIVATE_KEY_MARKER);
      ReplacedHere(before, key, behind, PUBLIC_KEY_MARKER);
      if target.publicKey != "" && !Occurs(error, target.publicKey) {
        NoMatchNoChange(error, target.publicKey, PUBLIC_KEY_MARKER);
        ReplacedHere(before, key, behind, PASSPHRASE_MARKER);
      }
    }
  }

  lemma ReplacedHere(before: string, key: string, behind: string, marker: string)
    requires key != "" && forall i: nat | i < |before| :: !OccursAt(before + key + behind, key, i)
    requires !Occurs(behind, key)
    ensures Replace(before + key + behind, key, marker) == before + marker + behind
  {
    hide Replace, Occurs;
    ReplaceAtFirst(before, key, behind, marker);
    NoMatchNoChange(behind, key, marker);
  }
}
