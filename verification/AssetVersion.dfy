/** The version comparison of libcore/assets_version.go. */
module AssetVersion {
  import opened Common

  const UINT64 := 0x1_0000_0000_0000_0000

  /** A version as a number: strconv.ParseUint in base 10 for 64 bits. */
  function Number(s: string): Option<nat> {
    if s == "" || Digits(s) == None || Digits(s).value >= UINT64 then None else Digits(s)
  }

  predicate ShouldUpdateAsset(localVersion: string, assetVersion: string) {
    if localVersion == "Custom" then false
    else if Number(assetVersion) == None then assetVersion != localVersion
    else Number(localVersion) == None || Number(assetVersion).value > Number(localVersion).value
  }

  /** A bundle of version `bundled` replaces what calls itself `local`: the user's own file never is,
      numbers count by their value, and anything else by being different. */
  predicate IsStale(local: string, bundled: string) {
    local != "Custom" &&
    match (Number(local), Number(bundled))
    case (Some(have), Some(offered)) => offered > have
    case _ => bundled != local
  }

  /** A bundle whose version is a number replaces whatever has no number, and one without a number
      whatever has another name. */
  lemma UpdateIffStale(local: string, bundled: string)
    ensures ShouldUpdateAsset(local, bundled) <==> IsStale(local, bundled)
    ensures !ShouldUpdateAsset("Custom", bundled)
  {
  }

  lemma {:induction false} PrefixDigits(p: string, s: string)
    requires p <= s && Digits(s).Some?
    ensures Digits(p).Some? && Digits(p).value <= Digits(s).value
  {
    if |p| < |s| {
      PrefixDigits(p, s[..|s| - 1]);
    } else {
      assert p == s;
    }
  }

  lemma {:induction false} DigitsOnly(s: string)
    ensures Digits(s).Some? <==> forall k :: 0 <= k < |s| ==> IsDigit(s[k])
  {
    if s != "" {
      var n := |s| - 1;
      DigitsOnly(s[..n]);
      assert s == s[..n] + [s[n]];
      assert forall k :: 0 <= k < n ==> s[..n][k] == s[k];
    }
  }

  /** A version file cut short while a numeric version was written never claims more than that
      version, and never reads as the user's own file. */
  lemma CutShort(p: string, s: string)
    requires p <= s && Number(s).Some?
    ensures Number(p).Some? ==> Number(p).value <= Number(s).value
    ensures p != "Custom"
  {
    PrefixDigits(p, s);
    DigitsOnly(p);
    assert IsDigit("Custom"[0]) == false;
  }

  /** For numeric versions the file that is kept is the newer one; a cut version file of a
      positive version without leading zeros is always stale. */
  lemma CutShortIsStale(p: string, s: string)
    requires p < s && Number(s).Some? && s[0] != '0'
    ensures ShouldUpdateAsset(p, s)
  {
    CutShort(p, s);
    StrictPrefixDigits(p, s);
  }

  lemma {:induction false} StrictPrefixDigits(p: string, s: string)
    requires p < s && Digits(s).Some? && s[0] != '0'
    ensures Digits(p).Some? && Digits(p).value < Digits(s).value
    decreases |s|
  {
    DigitsOnly(s);
    if |s| == 1 {
      assert p == "";
      assert s[..0] == "";
    } else if |p| < |s| - 1 {
      StrictPrefixDigits(p, s[..|s| - 1]);
    } else {
      assert p == s[..|s| - 1];
      StrictPrefixDigits("", p);
    }
  }

  /** Of the digits of a number Number makes that number, up to 64 bits. */
  lemma NumberOfDecimal(n: nat)
    ensures Number(Itoa(n)) == if n < UINT64 then Some(n) else None
  {
    ItoaBack(n);
  }
}
