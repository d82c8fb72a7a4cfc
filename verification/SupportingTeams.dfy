/** Supporting team keys travel inside the reasons of a dispatch decision, as one marker entry. */
module SupportingTeams {
  const PREFIX := "__supporting_teams__:"

  /** An entry of the stored list; entries that are no strings are passed through. */
  datatype Reason = Text(text: string) | Other(value: int)

  function Join(keys: seq<string>): string {
    if keys == [] then "" else if |keys| == 1 then keys[0] else keys[0] + "," + Join(keys[1..])
  }

  /** Splitting at every comma. */
  function Split(s: string): (parts: seq<string>)
    ensures parts != []
  {
    if s == "" then [""]
    else
      var rest := Split(s[1..]);
      if s[0] == ',' then [""] + rest else [[s[0]] + rest[0]] + rest[1..]
  }

  function NonEmpty(parts: seq<string>): seq<string> {
    if parts == [] then [] else (if parts[0] != "" then [parts[0]] else []) + NonEmpty(parts[1..])
  }

  predicate StartsWith(s: string, prefix: string) {
    |prefix| <= |s| && s[..|prefix|] == prefix
  }

  predicate IsMarker(r: Reason) {
    r.Text? && StartsWith(r.text, PREFIX)
  }

  function KeysIn(r: Reason): seq<string> {
    if IsMarker(r) then NonEmpty(Split(r.text[|PREFIX|..])) else []
  }

  function AllKeys(reasons: seq<Reason>): seq<string> {
    if reasons == [] then [] else AllKeys(reasons[..|reasons| - 1]) + KeysIn(reasons[|reasons| - 1])
  }

  function Plain(reasons: seq<Reason>): seq<Reason> {
    if reasons == [] then []
    else
      var before := Plain(reasons[..|reasons| - 1]);
      if IsMarker(reasons[|reasons| - 1]) then before else before + [reasons[|reasons| - 1]]
  }

  function Encoded(reasons: seq<Reason>, keys: seq<string>): seq<Reason> {
    if keys == [] then reasons else reasons + [Text(PREFIX + Join(keys))]
  }

  datatype Extraction = Extraction(keys: seq<string>, reasons: seq<Reason>)

  /** The stored reasons are rewritten only when some key was found. */
  function Extracted(reasons: seq<Reason>): Extraction {
    Extraction(AllKeys(reasons), if AllKeys(reasons) != [] then Plain(reasons) else reasons)
  }

  class DispatchDecision {
    var reasons: seq<Reason>

    constructor (proposed: seq<Reason>, supportingKeys: seq<string>)
      ensures reasons == Encoded(proposed, supportingKeys)
    {
      reasons := if supportingKeys != [] then proposed + [Text(PREFIX + Join(supportingKeys))] else proposed;
    }

    method ExtractSupportingTeamKeys() returns (keys: seq<string>)
      modifies this
      ensures Extraction(keys, reasons) == Extracted(old(reasons))
    {
      keys := [];
      var remaining := [];
      for i := 0 to |reasons|
        invariant reasons == old(reasons)
        invariant keys == AllKeys(reasons[..i]) && remaining == Plain(reasons[..i])
      {
        assert reasons[..i + 1][..i] == reasons[..i];
        if IsMarker(reasons[i]) {
          keys := keys + NonEmpty(Split(reasons[i].text[|PREFIX|..]));
        } else {
          remaining := remaining + [reasons[i]];
        }
      }
      assert reasons[..|reasons|] == reasons;
      if keys != [] {
        reasons := remaining;
      }
    }
  }

  // ----- Splitting undoes joining -----

  lemma {:induction false} SplitOne(key: string)
    requires ',' !in key
    ensures Split(key) == [key]
  {
    if key == "" {
    } else {
      SplitOne(key[1..]);
      assert key == [key[0]] + key[1..];
    }
  }

  lemma {:induction false} SplitFirst(key: string, rest: string)
    requires ',' !in key
    ensures Split(key + "," + rest) == [key] + Split(rest)
  {
    var s := key + "," + rest;
    if key == "" {
      assert s[1..] == rest;
    } else {
      SplitFirst(key[1..], rest);
      assert s[1..] == key[1..] + "," + rest;
      assert key == [key[0]] + key[1..];
    }
  }

  predicate Storable(keys: seq<string>) {
    forall k <- keys :: k != "" && ',' !in k
  }

  lemma {:induction false} SplitUndoesJoin(keys: seq<string>)
    requires keys != [] && Storable(keys)
    ensures Split(Join(keys)) == keys && NonEmpty(keys) == keys
  {
    if |keys| == 1 {
      SplitOne(keys[0]);
      assert keys == [keys[0]];
    } else {
      assert forall k <- keys[1..] :: k in keys;
      SplitUndoesJoin(keys[1..]);
      SplitFirst(keys[0], Join(keys[1..]));
      assert keys == [keys[0]] + keys[1..];
    }
  }

  lemma {:induction false} PartsAreStorable(s: string)
    ensures forall p <- Split(s) :: ',' !in p
  {
    if s == "" {
    } else {
      PartsAreStorable(s[1..]);
    }
  }

  lemma {:induction false} NonEmptyKeepsParts(parts: seq<string>)
    ensures forall p :: p in NonEmpty(parts) <==> p in parts && p != ""
  {
    if parts == [] {
    } else {
      NonEmptyKeepsParts(parts[1..]);
    }
  }

  /** Nothing is found exactly where only commas stand. */
  lemma {:induction false} OnlyCommas(s: string)
    ensures NonEmpty(Split(s)) == [] <==> forall c <- s :: c == ','
  {
    NonEmptyKeepsParts(Split(s));
    if s == "" {
    } else {
      OnlyCommas(s[1..]);
      NonEmptyKeepsParts(Split(s[1..]));
      assert s == [s[0]] + s[1..];
      if s[0] == ',' {
        assert Split(s) == [""] + Split(s[1..]);
        assert Split(s)[1..] == Split(s[1..]);
        assert NonEmpty(Split(s)) == NonEmpty(Split(s[1..]));
        assert forall c :: c in s <==> c == s[0] || c in s[1..];
      } else {
        assert Split(s)[0] in Split(s) && Split(s)[0] != "";
        assert s[0] in s;
      }
    }
  }

  // ----- The round trip -----

  lemma {:induction false} NoMarkersNoKeys(reasons: seq<Reason>)
    requires forall r <- reasons :: !IsMarker(r)
    ensures AllKeys(reasons) == [] && Plain(reasons) == reasons
  {
    if reasons == [] {
    } else {
      NoMarkersNoKeys(reasons[..|reasons| - 1]);
      assert reasons == reasons[..|reasons| - 1] + [reasons[|reasons| - 1]];
    }
  }

  lemma {:induction false} PlainHasNoMarkers(reasons: seq<Reason>)
    ensures forall r <- Plain(reasons) :: !IsMarker(r)
  {
    if reasons == [] {
    } else {
      PlainHasNoMarkers(reasons[..|reasons| - 1]);
    }
  }

  lemma {:induction false} NoKeysIff(reasons: seq<Reason>)
    ensures AllKeys(reasons) == [] <==> forall r <- reasons :: KeysIn(r) == []
  {
    if reasons == [] {
    } else {
      NoKeysIff(reasons[..|reasons| - 1]);
      assert reasons == reasons[..|reasons| - 1] + [reasons[|reasons| - 1]];
    }
  }

  predicate BlankMarker(r: Reason) {
    IsMarker(r) && forall c <- r.text[|PREFIX|..] :: c == ','
  }

  /** When extraction gives back exactly what was stored. */
  predicate Survives(reasons: seq<Reason>, keys: seq<string>) {
    if keys != [] then Storable(keys) && forall r <- reasons :: !IsMarker(r)
    else forall r <- reasons :: IsMarker(r) ==> BlankMarker(r)
  }

  lemma {:induction false} MarkerAtTheEnd(reasons: seq<Reason>, keys: seq<string>)
    requires keys != []
    ensures var all := Encoded(reasons, keys);
            && AllKeys(all) == AllKeys(reasons) + NonEmpty(Split(Join(keys)))
            && Plain(all) == Plain(reasons)
  {
    var marker := Text(PREFIX + Join(keys));
    assert marker.text[..|PREFIX|] == PREFIX && marker.text[|PREFIX|..] == Join(keys);
    assert (reasons + [marker])[..|reasons|] == reasons;
  }

  /** Keys and reasons survive storage iff every key can be told apart from the separators and no
      reason looks like a marker; without keys, iff no reason is a marker that names some key. */
  lemma {:induction false} SurvivesIff(reasons: seq<Reason>, keys: seq<string>)
    ensures Extracted(Encoded(reasons, keys)) == Extraction(keys, reasons) <==> Survives(reasons, keys)
  {
    if keys == [] {
      NoKeysIff(reasons);
      forall r | r in reasons && IsMarker(r)
        ensures KeysIn(r) == [] <==> BlankMarker(r)
      {
        OnlyCommas(r.text[|PREFIX|..]);
      }
    } else {
      MarkerAtTheEnd(reasons, keys);
      if Survives(reasons, keys) {
        NoMarkersNoKeys(reasons);
        SplitUndoesJoin(keys);
      }
      if Extracted(Encoded(reasons, keys)) == Extraction(keys, reasons) {
        PlainHasNoMarkers(reasons);
        NoMarkersNoKeys(reasons);
        PartsAreStorable(Join(keys));
        NonEmptyKeepsParts(Split(Join(keys)));
      }
    }
  }

  /** A second extraction finds nothing and changes nothing: no collaboration is requested twice. */
  lemma {:induction false} ExtractsOnce(reasons: seq<Reason>)
    ensures var first := Extracted(reasons);
            Extracted(first.reasons) == Extraction([], first.reasons)
  {
    if AllKeys(reasons) != [] {
      PlainHasNoMarkers(reasons);
      NoMarkersNoKeys(Plain(reasons));
    }
  }
}
