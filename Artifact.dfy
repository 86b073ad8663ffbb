/**
 * The focal object's visual identity (`ArtifactConfig`), its default, and the
 * fixed lookup from the active project id to the configuration the object
 * takes on. Colours are `#rrggbb` strings as in the source; `ColorOf` decodes
 * one the way `new THREE.Color(hex)` reads a hex string, channel by channel.
 */
module Artifact {
  import opened Wrappers
  import opened Vectors

  datatype ArtifactConfig = ArtifactConfig(
    color: string,
    distortion: real,
    ringSpeed: real,
    emissiveIntensity: real,
    scale: real)

  const DefaultConfig: ArtifactConfig := ArtifactConfig("#ffffff", 0.2, 1.0, 0.5, 1.0)

  /** The selectable projects, with `NoProject` for a null or unknown id. */
  datatype ProjectId = NoProject | Airable | I12 | Qs

  /** The project id string the lookup matches for each project. */
  function ProjectKey(p: ProjectId): Option<string>
  {
    match p
    case NoProject => None
    case Airable => Some("airable")
    case I12 => Some("i12")
    case Qs => Some("qs")
  }

  /** Reads the `activeProject` selector: the three known ids, and anything else as no project. */
  function Selected(active: Option<string>): (p: ProjectId)
    ensures p != NoProject ==> ProjectKey(p) == active
    ensures p == NoProject <==> active !in {Some("airable"), Some("i12"), Some("qs")}
  {
    match active
    case Some(id) =>
      if id == "airable" then Airable
      else if id == "i12" then I12
      else if id == "qs" then Qs
      else NoProject
    case None => NoProject
  }

  /** Every project's key selects that project again. */
  lemma SelectedKey(p: ProjectId)
    ensures Selected(ProjectKey(p)) == p
  {
  }

  /** The `switch (activeProject)`: each project overrides some fields of the default; anything else is the default. */
  function ConfigFor(p: ProjectId): (c: ArtifactConfig)
    ensures p == NoProject ==> c == DefaultConfig
    ensures c.emissiveIntensity != DefaultConfig.emissiveIntensity <==> p == Qs
    ensures p != NoProject ==> c.color != DefaultConfig.color && c.ringSpeed != DefaultConfig.ringSpeed
    ensures 1.0 <= c.scale <= 1.3 && c.ringSpeed > 0.0 && c.distortion >= 0.0
    ensures IsHexColor(c.color)
  {
    match p
    case Airable => DefaultConfig.(color := "#00ffee", distortion := 0.8, ringSpeed := 2.0, scale := 1.2)
    case I12 => DefaultConfig.(color := "#0055ff", distortion := 0.1, ringSpeed := 0.5, scale := 1.1)
    case Qs => DefaultConfig.(color := "#ff00aa", distortion := 1.2, ringSpeed := 1.5, emissiveIntensity := 1.5, scale := 1.3)
    case NoProject => DefaultConfig
  }

  /** The value of one hexadecimal digit, either case. */
  function HexDigit(c: char): (d: Option<nat>)
    ensures d.Some? ==> d.value < 16
  {
    if '0' <= c <= '9' then Some(c as nat - '0' as nat)
    else if 'a' <= c <= 'f' then Some(c as nat - 'a' as nat + 10)
    else if 'A' <= c <= 'F' then Some(c as nat - 'A' as nat + 10)
    else None
  }

  predicate IsHexColor(s: string)
  {
    |s| == 7 && s[0] == '#' && forall i :: 1 <= i < 7 ==> HexDigit(s[i]).Some?
  }

  /** The byte written by the two hex digits at `i` and `i + 1`. */
  function HexByte(s: string, i: nat): (b: nat)
    requires IsHexColor(s) && 1 <= i < 6
    ensures b < 256
  {
    16 * HexDigit(s[i]).value + HexDigit(s[i + 1]).value
  }

  /** `new THREE.Color("#rrggbb")`: each channel is its byte divided by 255. */
  function ColorOf(s: string): (c: Vec3)
    requires IsHexColor(s)
    ensures 0.0 <= c.x <= 1.0 && 0.0 <= c.y <= 1.0 && 0.0 <= c.z <= 1.0
  {
    var r, g, b := HexByte(s, 1), HexByte(s, 3), HexByte(s, 5);
    RatioBounds(r as real, 255.0);
    RatioBounds(g as real, 255.0);
    RatioBounds(b as real, 255.0);
    Vec3(r as real / 255.0, g as real / 255.0, b as real / 255.0)
  }

  /** The decoded colours of the default and of the `qs` configuration. */
  lemma KnownColors()
    ensures ColorOf(DefaultConfig.color) == Vec3(1.0, 1.0, 1.0)
    ensures ColorOf(ConfigFor(Qs).color) == Vec3(1.0, 0.0, 170.0 / 255.0)
  {
  }
}
