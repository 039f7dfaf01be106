/**
 * `PasswordHasher` (BrewMaster/Utilities/PasswordHasher.cs): passwords are
 * stored as `<hex of SHA-256(password + salt)>:<salt>`, the salt being the
 * Base64 text of 16 random bytes.
 *
 * SHA-256 over the UTF-8 bytes of a string is a library call; it is the
 * parameter `sha`, about which nothing is assumed beyond its 32-byte result.
 * The random salt bytes are the parameter `saltBytes`.
 */
module PasswordHasher {
  import opened Wrappers
  import opened Text
  import opened Encoding

  type Digest = d: seq<Byte> | |d| == 32 witness seq(32, _ => 0)

  /** `SHA256.ComputeHash(Encoding.UTF8.GetBytes(s))`. */
  type Sha256 = string -> Digest

  type SaltBytes = s: seq<Byte> | |s| == 16 witness seq(16, _ => 0)

  /** The text `HashPasswordWithSalt` builds. */
  function SaltedHash(sha: Sha256, password: string, salt: string): string {
    Hex(sha(password + salt)) + ":" + salt
  }

  /** The stored value is 64 lower-case hex digits, a colon, then the salt. */
  lemma StoredFormat(sha: Sha256, password: string, salt: string)
    ensures var stored := SaltedHash(sha, password, salt);
      && |stored| == 65 + |salt|
      && (forall i :: 0 <= i < 64 ==> IsLowerHexDigit(stored[i]))
      && stored[64] == ':'
      && stored[65..] == salt
  {
    HexIsLowerHex(sha(password + salt));
  }

  /** Appends `x2` of each hash byte to a builder in a loop, then `:` and the salt. */
  method HashPasswordWithSalt(sha: Sha256, password: string, salt: string) returns (stored: string)
    ensures stored == SaltedHash(sha, password, salt)
  {
    var bytes := sha(password + salt);
    var builder := "";
    for i := 0 to |bytes|
      invariant builder == Hex(bytes[..i])
    {
      assert bytes[..i + 1][..i] == bytes[..i];
      builder := builder + HexByte(bytes[i]);
    }
    assert bytes[..|bytes|] == bytes;
    stored := builder + ":" + salt;
  }

  /** `Convert.ToBase64String` of the 16 random bytes: 24 characters, none of them a colon. */
  function GenerateSalt(saltBytes: SaltBytes): (salt: string)
    ensures |salt| == 24 && ':' !in salt
  {
    Base64Shape(saltBytes);
    Base64Encode(saltBytes)
  }

  /** `HashPassword`: a null or empty password throws (`Failure`); otherwise the salted hash with a fresh salt. */
  method HashPassword(sha: Sha256, password: Option<string>, saltBytes: SaltBytes)
    returns (r: Result<string, string>)
    ensures IsNullOrEmpty(password) <==> r.Failure?
    ensures r.Success? ==> r.value == SaltedHash(sha, password.value, GenerateSalt(saltBytes))
    ensures r.Success? ==> VerifyPassword(sha, password, Some(r.value))
  {
    if IsNullOrEmpty(password) {
      return Failure("Password cannot be null or empty");
    }
    var salt := GenerateSalt(saltBytes);
    var stored := HashPasswordWithSalt(sha, password.value, salt);
    VerifyRoundTrip(sha, password.value, salt);
    r := Success(stored);
  }

  // ----- String.Split(':') -----

  /** `s.Split(sep)`: the pieces between separators, empty pieces included; no piece holds the separator. */
  function Split(s: string, sep: char): (parts: seq<string>)
    ensures |parts| >= 1
    ensures forall i :: 0 <= i < |parts| ==> sep !in parts[i]
  {
    if |s| == 0 then [""]
    else
      var rest := Split(s[1..], sep);
      if s[0] == sep then [""] + rest else [[s[0]] + rest[0]] + rest[1..]
  }

  /** Splitting yields one more piece than there are separators. */
  lemma {:induction false} SplitCount(s: string, sep: char)
    ensures |Split(s, sep)| == multiset(s)[sep] + 1
  {
    if |s| > 0 {
      SplitCount(s[1..], sep);
      assert s == [s[0]] + s[1..];
    }
  }

  /** Text without the separator splits into itself. */
  lemma {:induction false} SplitNoSeparator(s: string, sep: char)
    requires sep !in s
    ensures Split(s, sep) == [s]
  {
    if |s| > 0 {
      SplitNoSeparator(s[1..], sep);
      assert s == [s[0]] + s[1..];
    }
  }

  /** `a:b` splits back into `a` and `b` when neither holds a separator. */
  lemma {:induction false} SplitJoined(a: string, b: string, sep: char)
    requires sep !in a && sep !in b
    ensures Split(a + [sep] + b, sep) == [a, b]
  {
    if |a| == 0 {
      assert a + [sep] + b == [sep] + b;
      SplitNoSeparator(b, sep);
    } else {
      SplitJoined(a[1..], b, sep);
      assert (a + [sep] + b)[1..] == a[1..] + [sep] + b;
      assert a == [a[0]] + a[1..];
    }
  }

  /** A string with exactly one separator splits into the parts before and after it. */
  lemma SplitInTwo(s: string, sep: char)
    requires |Split(s, sep)| == 2
    ensures s == Split(s, sep)[0] + [sep] + Split(s, sep)[1]
    ensures sep !in Split(s, sep)[0] && sep !in Split(s, sep)[1]
  {
    SplitCount(s, sep);
    var k :| 0 <= k < |s| && s[k] == sep;
    var a, b := s[..k], s[k + 1..];
    assert s == a + [sep] + b;
    assert multiset(s) == multiset(a) + multiset{sep} + multiset(b);
    assert sep !in multiset(a) && sep !in multiset(b);
    SplitJoined(a, b, sep);
  }

  // ----- VerifyPassword -----

  /** `VerifyPassword`: split the stored text on `:`, rehash with its salt and compare the hex parts ordinally. */
  function VerifyPassword(sha: Sha256, password: Option<string>, storedHash: Option<string>): bool {
    if IsNullOrEmpty(password) || IsNullOrEmpty(storedHash) then false
    else
      var parts := Split(storedHash.value, ':');
      if |parts| != 2 then false
      else
        var inputParts := Split(SaltedHash(sha, password.value, parts[1]), ':');
        if |inputParts| != 2 then false
        else inputParts[0] == parts[0]
  }

  /** The recomputed hash always splits in two, because the salt it carries came out of a split on `:`. */
  lemma RecomputedSplits(sha: Sha256, password: string, salt: string)
    requires ':' !in salt
    ensures Split(SaltedHash(sha, password, salt), ':') == [Hex(sha(password + salt)), salt]
  {
    HexIsLowerHex(sha(password + salt));
    SplitJoined(Hex(sha(password + salt)), salt, ':');
  }

  /** A password verifies exactly when both texts are non-empty, the stored text splits in two on `:` (it has exactly one `:`, by `SplitCount`), and the hex of the hash of password + stored salt equals the stored hex part. */
  lemma VerifyPasswordIff(sha: Sha256, password: Option<string>, storedHash: Option<string>)
    ensures VerifyPassword(sha, password, storedHash) <==>
      && !IsNullOrEmpty(password) && !IsNullOrEmpty(storedHash)
      && var parts := Split(storedHash.value, ':');
         |parts| == 2 && Hex(sha(password.value + parts[1])) == parts[0]
  {
    if !IsNullOrEmpty(password) && !IsNullOrEmpty(storedHash) {
      SplitCount(storedHash.value, ':');
      var parts := Split(storedHash.value, ':');
      if |parts| == 2 {
        SplitInTwo(storedHash.value, ':');
        RecomputedSplits(sha, password.value, parts[1]);
      }
    }
  }

  /** Round trip: a non-empty password verifies against its own stored hash for any salt without `:`. */
  lemma VerifyRoundTrip(sha: Sha256, password: string, salt: string)
    requires password != "" && ':' !in salt
    ensures VerifyPassword(sha, Some(password), Some(SaltedHash(sha, password, salt)))
  {
    HexIsLowerHex(sha(password + salt));
    SplitJoined(Hex(sha(password + salt)), salt, ':');
    RecomputedSplits(sha, password, salt);
  }

  /** A password that verifies against the hash of another password has the same SHA-256 under that salt: only a hash collision lets a wrong password in. */
  lemma VerifyMeansSameDigest(sha: Sha256, password: string, other: string, salt: string)
    requires ':' !in salt
    requires VerifyPassword(sha, Some(password), Some(SaltedHash(sha, other, salt)))
    ensures sha(password + salt) == sha(other + salt)
  {
    HexIsLowerHex(sha(other + salt));
    SplitJoined(Hex(sha(other + salt)), salt, ':');
    RecomputedSplits(sha, password, salt);
    HexInjective(sha(password + salt), sha(other + salt));
  }

  /** Every salt `HashPassword` generates works with the round trip. */
  lemma GeneratedSaltRoundTrip(sha: Sha256, password: string, saltBytes: SaltBytes)
    requires password != ""
    ensures VerifyPassword(sha, Some(password), Some(SaltedHash(sha, password, GenerateSalt(saltBytes))))
  {
    VerifyRoundTrip(sha, password, GenerateSalt(saltBytes));
  }
}
