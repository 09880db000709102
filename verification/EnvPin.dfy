/**
  The pin: the BELUNE_IMAGE= lines of .env, which say what image an install runs
  (apps/api/cmd/update/update.go, currentImage, movePin and the version arithmetic of Run).
 */
module EnvPin {
  import opened Base
  import opened Text

  const PIN := "BELUNE_IMAGE="
  const IMAGE_PREFIX := "ghcr.io/weiliang79/belune:"

  predicate IsPin(line: string) { PIN <= line }

  function Lines(env: string): (lines: seq<string>)
    ensures |lines| >= 1
  {
    Split(env, '\n')
  }

  ghost predicate HasPin(env: string) {
    exists i :: 0 <= i < |Lines(env)| && IsPin(Lines(env)[i])
  }

  /** The value of the first pin line. */
  function FirstPin(lines: seq<string>): (image: Option<string>)
    ensures image.Some? <==> exists i :: 0 <= i < |lines| && IsPin(lines[i])
    ensures image.Some? ==> PIN + image.value in lines
  {
    if lines == [] then None
    else if IsPin(lines[0]) then
      assert PIN + AfterPin(lines[0]) == lines[0];
      Some(AfterPin(lines[0]))
    else FirstPin(lines[1..])
  }

  function AfterPin(line: string): string
    requires IsPin(line)
  {
    line[|PIN|..]
  }

  function CurrentImage(env: string): string {
    match FirstPin(Lines(env)) case Some(image) => image case None => ""
  }

  lemma PinIsThere(env: string)
    requires CurrentImage(env) != ""
    ensures HasPin(env)
  {
  }

  /** Every pin line replaced, every other line kept. */
  function Moved(lines: seq<string>, pin: string): (moved: seq<string>)
    ensures |moved| == |lines|
    ensures forall i | 0 <= i < |lines| :: moved[i] == if IsPin(lines[i]) then pin else lines[i]
  {
    seq(|lines|, i requires 0 <= i < |lines| => if IsPin(lines[i]) then pin else lines[i])
  }

  /** What .env holds after the pin has moved. Without a pin line the new one is appended as it stands. */
  function Repin(env: string, image: string): string {
    if FirstPin(Lines(env)).Some? then Join(Moved(Lines(env), PIN + image), '\n')
    else env + PIN + image + "\n"
  }

  // ----- The two loops -----

  method ReadCurrentImage(env: string) returns (image: string)
    ensures image == CurrentImage(env)
  {
    hide Lines, IsPin;
    var lines := Lines(env);
    assert lines[0..] == lines;
    for i := 0 to |lines|
      invariant FirstPin(lines) == FirstPin(lines[i..])
    {
      assert lines[i..][0] == lines[i] && lines[i..][1..] == lines[i + 1..];
      if IsPin(lines[i]) {
        return AfterPin(lines[i]);
      }
    }
    return "";
  }

  /** movePin's loop: the lines are replaced one by one. */
  method MoveLines(original: seq<string>, pin: string) returns (lines: seq<string>, found: bool)
    ensures lines == Moved(original, pin)
    ensures found <==> exists j :: 0 <= j < |original| && IsPin(original[j])
  {
    lines, found := original, false;
    for i := 0 to |lines|
      invariant |lines| == |original|
      invariant forall j | 0 <= j < i :: lines[j] == Moved(original, pin)[j]
      invariant forall j | i <= j < |lines| :: lines[j] == original[j]
      invariant found <==> exists j :: 0 <= j < i && IsPin(original[j])
    {
      if IsPin(lines[i]) {
        lines := lines[i := pin];
        found := true;
      }
    }
  }

  /** movePin's rewrite; no pin line at all is the appending branch. */
  method RewritePin(env: string, image: string) returns (text: string)
    ensures text == Repin(env, image)
  {
    var pin := PIN + image;
    var lines, found := MoveLines(Lines(env), pin);
    return if found then Join(lines, '\n') else env + pin + "\n";
  }

  // ----- What the rewrite keeps, line by line -----

  lemma LinesAreClean(env: string)
    ensures Clean(Lines(env), '\n') && Join(Lines(env), '\n') == env
  {
    JoinSplit(env, '\n');
  }

  lemma MovedIsClean(env: string, image: string)
    requires '\n' !in image
    ensures Clean(Moved(Lines(env), PIN + image), '\n')
  {
    LinesAreClean(env);
  }

  /** The line count and every line that is no pin survive, and every pin line becomes the new pin. */
  lemma RepinLines(env: string, image: string)
    requires HasPin(env) && '\n' !in image
    ensures Lines(Repin(env, image)) == Moved(Lines(env), PIN + image)
    ensures HasPin(Repin(env, image))
  {
    MovedIsClean(env, image);
    SplitJoin(Moved(Lines(env), PIN + image), '\n');
    var i :| 0 <= i < |Lines(env)| && IsPin(Lines(env)[i]);
    assert IsPin(Lines(Repin(env, image))[i]);
  }

  lemma {:induction false} FirstPinOfMoved(lines: seq<string>, image: string)
    requires FirstPin(lines).Some?
    ensures FirstPin(Moved(lines, PIN + image)) == Some(image)
  {
    var moved := Moved(lines, PIN + image);
    if !IsPin(lines[0]) {
      FirstPinOfMoved(lines[1..], image);
      assert moved[1..] == Moved(lines[1..], PIN + image);
    }
  }

  /** A pin read from a file is one line. */
  lemma CurrentImageIsOneLine(env: string)
    ensures '\n' !in CurrentImage(env)
  {
    LinesAreClean(env);
    match FirstPin(Lines(env)) {
      case None =>
      case Some(image) =>
        var i :| 0 <= i < |Lines(env)| && Lines(env)[i] == PIN + image;
        assert forall c | c in image :: c in Lines(env)[i];
    }
  }

  /** The moved pin is what is read back, exactly when the image is one line. */
  lemma CurrentImageAfterRepin(env: string, image: string)
    requires HasPin(env)
    ensures CurrentImage(Repin(env, image)) == image <==> '\n' !in image
  {
    if '\n' !in image {
      RepinLines(env, image);
      FirstPinOfMoved(Lines(env), image);
    } else {
      CurrentImageIsOneLine(Repin(env, image));
    }
  }

  lemma MovedTwice(lines: seq<string>, first: string, second: string)
    requires IsPin(first)
    ensures Moved(Moved(lines, first), second) == Moved(lines, second)
  {
  }

  /** Only the last of two moves counts; in particular moving the pin twice to one image is moving it once. */
  lemma RepinTwice(env: string, first: string, second: string)
    requires HasPin(env) && '\n' !in first
    ensures Repin(Repin(env, first), second) == Repin(env, second)
  {
    RepinLines(env, first);
    MovedTwice(Lines(env), PIN + first, PIN + second);
    var moved := Repin(env, first);
    assert Repin(moved, second) == Join(Moved(Lines(moved), PIN + second), '\n');
  }

  ghost predicate OnePin(lines: seq<string>) {
    forall i, j | 0 <= i < |lines| && 0 <= j < |lines| && IsPin(lines[i]) && IsPin(lines[j]) :: lines[i] == lines[j]
  }

  /** Replacing every pin by one that is already there changes nothing exactly when there is only one pin text. */
  lemma MovedToOwnPin(lines: seq<string>, pin: string)
    requires pin in lines && IsPin(pin)
    ensures Moved(lines, pin) == lines <==> OnePin(lines)
  {
    var k :| 0 <= k < |lines| && lines[k] == pin;
    if OnePin(lines) {
      assert forall i | 0 <= i < |lines| && IsPin(lines[i]) :: lines[i] == lines[k];
    }
  }

  /**
    Writing the image that was current over every pin of the moved .env gives the old .env back
    exactly when all its pin lines were the same line.
   */
  lemma RollbackHintRestoresEnv(env: string, target: string)
    requires HasPin(env) && '\n' !in target
    ensures Repin(Repin(env, target), CurrentImage(env)) == env <==> OnePin(Lines(env))
  {
    var lines, image := Lines(env), CurrentImage(env);
    RepinTwice(env, target, image);
    CurrentImageIsOneLine(env);
    RepinLines(env, image);
    LinesAreClean(env);
    MovedToOwnPin(lines, PIN + image);
  }

  // ----- The pin in so many words -----

  /** A pin line is what begins so; the image is the rest. */
  lemma PinIs(image: string)
    ensures IsPin("BELUNE_IMAGE=" + image) && ("BELUNE_IMAGE=" + image)[|PIN|..] == image
    ensures forall line | IsPin(line) :: |line| >= 13 && line[..13] == "BELUNE_IMAGE="
  {
  }

  /** The image an install runs is that of its first pin line. */
  lemma {:induction false} FirstPinIsFirst(lines: seq<string>, i: nat)
    requires i < |lines| && IsPin(lines[i]) && forall k | 0 <= k < i :: !IsPin(lines[k])
    ensures FirstPin(lines) == Some(lines[i][|PIN|..])
  {
    if i > 0 {
      assert forall k | 0 <= k < i - 1 :: lines[1..][k] == lines[k + 1];
      FirstPinIsFirst(lines[1..], i - 1);
    }
  }

  /** The pin of a version, spelt with a leading v or without. */
  lemma PinOfVersion(version: string)
    requires !("v" <= version)
    ensures PIN + TargetImage(version) == "BELUNE_IMAGE=" + ("ghcr.io/weiliang79/belune:" + version)
    ensures TargetImage("v" + version) == TargetImage(version)
  {
    assert ("v" + version)[1..] == version;
  }

  /** After an update to a version every pin line names it, and no other line differs. */
  lemma PinLinesName(env: string, version: string)
    requires HasPin(env) && '\n' !in version
    ensures var was, now := Lines(env), Lines(Repin(env, IMAGE_PREFIX + version));
            && |now| == |was|
            && forall i | 0 <= i < |was| ::
                 now[i] == if "BELUNE_IMAGE=" <= was[i] then PIN + (IMAGE_PREFIX + version) else was[i]
  {
    hide Lines, HasPin, Repin;
    NoNewlineInImage(version);
    RepinLines(env, IMAGE_PREFIX + version);
  }

  /** A file without a pin line gets one at its end. */
  lemma AppendedPin(env: string, image: string)
    requires !HasPin(env)
    ensures Repin(env, image) == env + "BELUNE_IMAGE=" + image + "\n"
  {
  }

  // ----- Versions -----

  /** Everything after the last colon; the whole text when there is none. */
  function AfterLastColon(image: string): (version: string)
    ensures ':' !in version
    ensures |version| <= |image| && image[|image| - |version|..] == version
    ensures |version| < |image| ==> image[|image| - |version| - 1] == ':'
  {
    if ':' !in image then image
    else
      var rest := AfterLastColon(image[1..]);
      assert image[|image| - |rest|..] == image[1..][|image| - 1 - |rest|..];
      rest
  }

  lemma {:induction false} AfterLastColonUnique(head: string, version: string)
    requires ':' !in version
    ensures AfterLastColon(head + ":" + version) == version
  {
    var image := head + ":" + version;
    assert image[|head|] == ':';
    if head == [] {
      assert image[1..] == version;
    } else {
      assert image[1..] == head[1..] + ":" + version;
      AfterLastColonUnique(head[1..], version);
    }
  }

  /** One leading v is dropped, not all of them. */
  function TargetVersion(arg: string): string { TrimPrefix(arg, "v") }

  function TargetImage(arg: string): string { IMAGE_PREFIX + TargetVersion(arg) }

  function InstalledVersion(env: string): string { AfterLastColon(CurrentImage(env)) }

  /** The test by which Run stops with nothing to do. */
  predicate AlreadyOn(env: string, arg: string) { InstalledVersion(env) == TargetVersion(arg) }

  /** The version read back from an image made of the prefix and one colon-free version is that version. */
  lemma VersionReadBack(version: string)
    requires ':' !in version
    ensures AfterLastColon(IMAGE_PREFIX + version) == version
  {
    var head := IMAGE_PREFIX[..|IMAGE_PREFIX| - 1];
    assert IMAGE_PREFIX + version == head + ":" + version;
    AfterLastColonUnique(head, version);
  }

  lemma AfterLastColonAmong(image: string, c: char)
    requires c !in image
    ensures c !in AfterLastColon(image)
  {
  }

  lemma StopsOn(env: string, version: string)
    requires HasPin(env)
    ensures InstalledVersion(Repin(env, IMAGE_PREFIX + version)) == version <==> '\n' !in version && ':' !in version
  {
    var image := IMAGE_PREFIX + version;
    var after := Repin(env, image);
    if '\n' in version {
      CurrentImageIsOneLine(after);
      AfterLastColonAmong(CurrentImage(after), '\n');
    } else {
      NoNewlineInImage(version);
      CurrentImageAfterRepin(env, image);
      if ':' !in version {
        VersionReadBack(version);
      }
    }
  }

  lemma NoNewlineInImage(version: string)
    requires '\n' !in version
    ensures '\n' !in IMAGE_PREFIX + version
  {
  }

  /** Running again with the same argument is a no-op exactly when the version holds no newline and no colon. */
  lemma SecondRunStops(env: string, arg: string)
    requires HasPin(env)
    ensures AlreadyOn(Repin(env, TargetImage(arg)), arg) <==> '\n' !in TargetVersion(arg) && ':' !in TargetVersion(arg)
  {
    StopsOn(env, TargetVersion(arg));
  }

  /**
    The same for the version spelt differently: with one v put in front it always stops, and spelt
    bare it stops exactly when there is a version and it does not itself begin with a v. Without an
    argument the program stops before the test, for want of a target.
   */
  lemma SecondRunSpellings(env: string, arg: string)
    requires HasPin(env) && '\n' !in TargetVersion(arg) && ':' !in TargetVersion(arg)
    ensures AlreadyOn(Repin(env, TargetImage(arg)), "v" + TargetVersion(arg))
    ensures TargetVersion(arg) != "" && AlreadyOn(Repin(env, TargetImage(arg)), TargetVersion(arg))
       <==> TargetVersion(arg) != "" && TargetVersion(arg)[0] != 'v'
  {
    hide InstalledVersion, HasPin, Repin;
    var version := TargetVersion(arg);
    StopsOn(env, version);
    assert ("v" + version)[1..] == version;
    assert "v" <= version ==> |TrimPrefix(version, "v")| < |version|;
  }
}
