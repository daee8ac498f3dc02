/** Light-tag extraction from a model reply and the simulated light
    output (src/hardware_bridge.py). */
module HardwareBridge {
  import opened Wrappers
  import opened Text

  const Opening: string := "[LIGHTS:"

  predicate IsUpper(c: char) {
    'A' <= c <= 'Z'
  }

  /** End of the run of upper-case letters starting at `i`. */
  function UpperRun(s: string, i: nat): (k: nat)
    requires i <= |s|
    ensures i <= k <= |s|
    ensures forall j | i <= j < k :: IsUpper(s[j])
    ensures k < |s| ==> !IsUpper(s[k])
    decreases |s| - i
  {
    if i < |s| && IsUpper(s[i]) then UpperRun(s, i + 1) else i
  }

  /** The pattern `\[LIGHTS:([A-Z]+)\]` matches at `i`.  The letter run is
      greedy and backtracking to a shorter run would put a letter, not ']',
      after it, so a match is exactly: the opening, a maximal non-empty run
      of letters, then ']'. */
  predicate TagAt(s: string, i: nat) {
    && OpeningAt(s, i)
    && var e := UpperRun(s, i + |Opening|);
       e > i + |Opening| && e < |s| && s[e] == ']'
  }

  /** `s[i..]` starts with the opening "[LIGHTS:". */
  predicate OpeningAt(s: string, i: nat)
    ensures OpeningAt(s, i) ==> i + |Opening| <= |s| && s[i..i + |Opening|] == Opening
  {
    && i + 8 <= |s|
    && s[i] == '[' && s[i + 1] == 'L' && s[i + 2] == 'I' && s[i + 3] == 'G'
    && s[i + 4] == 'H' && s[i + 5] == 'T' && s[i + 6] == 'S' && s[i + 7] == ':'
  }

  /** One past the closing ']' of the tag at `i`. */
  function TagEnd(s: string, i: nat): (e: nat)
    requires TagAt(s, i)
    ensures i + |Opening| + 2 <= e <= |s|
  {
    UpperRun(s, i + |Opening|) + 1
  }

  /** The letters of the tag at `i` (regex group 1). */
  function TagLetters(s: string, i: nat): (w: string)
    requires TagAt(s, i)
    ensures w != [] && forall j | 0 <= j < |w| :: IsUpper(w[j])
  {
    s[i + |Opening|..TagEnd(s, i) - 1]
  }

  /** `re.search`: the leftmost match at or after `i`. */
  function FindTag(s: string, i: nat): (r: Option<nat>)
    requires i <= |s|
    ensures r.None? ==> forall j | i <= j <= |s| :: !TagAt(s, j)
    ensures r.Some? ==>
      && i <= r.value < |s| && TagAt(s, r.value)
      && forall j | i <= j < r.value :: !TagAt(s, j)
    decreases |s| - i
  {
    if i == |s| then None
    else if TagAt(s, i) then Some(i)
    else FindTag(s, i + 1)
  }

  /** `re.sub(pattern, '', s[i..])`: scanning left to right, each match is
      dropped and scanning resumes after it; other characters are kept. */
  function RemoveTags(s: string, i: nat): (r: string)
    requires i <= |s|
    ensures |r| <= |s| - i
    decreases |s| - i
  {
    if i == |s| then []
    else if TagAt(s, i) then RemoveTags(s, TagEnd(s, i))
    else [s[i]] + RemoveTags(s, i + 1)
  }

  /** `extract_hardware_commands(text)`: the text to speak and the light
      command, if any. */
  function ExtractHardwareCommands(text: string): (r: (string, Option<string>))
    ensures FindTag(text, 0).None? ==> r == (text, None)
    ensures FindTag(text, 0).Some? ==>
      r == (Strip(RemoveTags(text, 0)), Some(TagLetters(text, FindTag(text, 0).value)))
  {
    match FindTag(text, 0)
    case None => (text, None)
    case Some(i) => (Strip(RemoveTags(text, 0)), Some(TagLetters(text, i)))
  }

  /** Removal shortens the text exactly when a tag occurs in it. */
  lemma {:induction false} RemoveTagsShorter(s: string, i: nat)
    requires i <= |s|
    ensures FindTag(s, i).Some? ==> |RemoveTags(s, i)| < |s| - i
    ensures FindTag(s, i).None? ==> RemoveTags(s, i) == s[i..]
    decreases |s| - i
  {
    if i < |s| && !TagAt(s, i) {
      RemoveTagsShorter(s, i + 1);
      assert s[i..] == [s[i]] + s[i + 1..];
    }
  }

  /** Removal keeps the text exactly when no tag occurs in it. */
  lemma RemoveTagsIdentity(s: string)
    ensures RemoveTags(s, 0) == s <==> FindTag(s, 0).None?
  {
    RemoveTagsShorter(s, 0);
    assert s[0..] == s;
  }

  /** Text with no tag comes back unchanged and with no command; text with
      a tag yields a non-empty upper-case command and shorter text. */
  lemma ExtractProperties(text: string)
    ensures FindTag(text, 0).None? <==> ExtractHardwareCommands(text).1.None?
    ensures ExtractHardwareCommands(text).1.Some? ==>
      var c := ExtractHardwareCommands(text).1.value;
      c != [] && forall j | 0 <= j < |c| :: IsUpper(c[j])
    ensures ExtractHardwareCommands(text).1.Some? ==> |ExtractHardwareCommands(text).0| < |text|
  {
    RemoveTagsShorter(text, 0);
  }

  /** A tag nested inside the letters of another. */
  const Nested: string := "[LIGHTS:[LIGHTS:A]A]"

  /** One pass can leave a tag behind: removing the inner tag joins the
      outer tag's pieces. */
  lemma SinglePass()
    ensures ExtractHardwareCommands(Nested) == ("[LIGHTS:A]", Some("A"))
  {
    NestedInnerTag();
    NestedFind();
    NestedRemove();
    LeftoverStripped();
  }

  /** The leftover text has no white space to strip. */
  lemma LeftoverStripped()
    ensures Strip("[LIGHTS:A]") == "[LIGHTS:A]"
  {
    GraphicNoSpace("[LIGHTS:A]");
    StripNoSpace("[LIGHTS:A]");
  }

  /** In `Nested` the only tag is the inner one, at 8, ending at 18. */
  lemma NestedInnerTag()
    ensures TagAt(Nested, 8) && TagEnd(Nested, 8) == 18 && TagLetters(Nested, 8) == "A"
    ensures !TagAt(Nested, 0) && !TagAt(Nested, 18) && !TagAt(Nested, 19)
  {
    var s := Nested;
    assert UpperRun(s, 8) == 8;
    assert UpperRun(s, 17) == 17;
    assert UpperRun(s, 16) == 17;
  }

  /** The search finds the inner tag. */
  lemma NestedFind()
    requires TagAt(Nested, 8) && !TagAt(Nested, 0)
    ensures FindTag(Nested, 0) == Some(8)
  {
    var s := Nested;
    assert !OpeningAt(s, 1) && !OpeningAt(s, 2) && !OpeningAt(s, 3) && !OpeningAt(s, 4);
    assert !OpeningAt(s, 5) && !OpeningAt(s, 6) && !OpeningAt(s, 7);
    assert FindTag(s, 8) == Some(8);
    assert FindTag(s, 4) == Some(8);
  }

  /** Removal drops the inner tag and keeps the rest. */
  lemma NestedRemove()
    requires TagAt(Nested, 8) && TagEnd(Nested, 8) == 18
    requires !TagAt(Nested, 0) && !TagAt(Nested, 18) && !TagAt(Nested, 19)
    ensures RemoveTags(Nested, 0) == "[LIGHTS:A]"
  {
    var s := Nested;
    NestedRemoveInner();
    assert !OpeningAt(s, 1) && !OpeningAt(s, 2) && !OpeningAt(s, 3) && !OpeningAt(s, 4);
    assert !OpeningAt(s, 5) && !OpeningAt(s, 6) && !OpeningAt(s, 7);
    assert RemoveTags(s, 4) == "HTS:A]";
  }

  /** From the inner tag on, only the outer tag's last letter and ']' stay. */
  lemma NestedRemoveInner()
    requires TagAt(Nested, 8) && TagEnd(Nested, 8) == 18
    requires !TagAt(Nested, 18) && !TagAt(Nested, 19)
    ensures RemoveTags(Nested, 8) == "A]"
  {
    var s := Nested;
    assert RemoveTags(s, 19) == "]";
  }

  /** The simulated light show for a colour name. */
  function Visual(color: string): (v: string)
    ensures color !in {"RED", "PURPLE", "CYAN", "WHITE", "OFF", "FADE"} ==> v == "UNKNOWN COLOR: " + color
  {
    match color
    case "RED" => "\U{1F534}\U{1F534}\U{1F534} RED LIGHTS \U{1F534}\U{1F534}\U{1F534}"
    case "PURPLE" => "\U{1F7E3}\U{1F7E3}\U{1F7E3} PURPLE LIGHTS \U{1F7E3}\U{1F7E3}\U{1F7E3}"
    case "CYAN" => "\U{1F535}\U{1F535}\U{1F535} CYAN LIGHTS \U{1F535}\U{1F535}\U{1F535}"
    case "WHITE" => "\U{26AA}\U{26AA}\U{26AA} WHITE LIGHTS \U{26AA}\U{26AA}\U{26AA}"
    case "OFF" => "\U{26AB}\U{26AB}\U{26AB} LIGHTS OFF \U{26AB}\U{26AB}\U{26AB}"
    case "FADE" => "\U{1F32B}\U{FE0F}\U{1F32B}\U{FE0F}\U{1F32B}\U{FE0F} FADING \U{1F32B}\U{FE0F}\U{1F32B}\U{FE0F}\U{1F32B}\U{FE0F}"
    case _ => "UNKNOWN COLOR: " + color
  }

  /** `send_light_command(color)`: the line it logs (it changes nothing else). */
  function SendLightCommand(color: string): (line: string)
    ensures StartsWith(line, "[HARDWARE CONTROL] ")
    ensures line[|"[HARDWARE CONTROL] "|..] == Visual(color)
  {
    "[HARDWARE CONTROL] " + Visual(color)
  }

  /** Different known colours light differently, and no known colour's show
      reads as an unknown-colour notice. */
  lemma VisualsDistinct(a: string, b: string)
    requires a in {"RED", "PURPLE", "CYAN", "WHITE", "OFF", "FADE"}
    ensures a != b ==> Visual(a) != Visual(b)
    ensures Visual(a)[0] != 'U'
  {
    if a != b && b !in {"RED", "PURPLE", "CYAN", "WHITE", "OFF", "FADE"} {
      assert Visual(b)[0] == 'U';
    }
    assert Visual(a)[0] != 'U';
    if a != b {
      assert Visual(a)[0] != Visual(b)[0];
    }
  }
}
