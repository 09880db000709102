/**
  The sed line of the printed rollback (apps/api/cmd/update/update.go, rollbackHint), as the shell
  and sed read it: the old image stands in a single-quoted script, as the replacement of a
  substitution whose delimiter is a bar.
 */
module RollbackHint {
  import opened Base
  import opened EnvPin
  import opened Text

  /** A character the shell leaves alone outside quotes. */
  predicate Inert(c: char) {
    'a' <= c <= 'z' || 'A' <= c <= 'Z' || '0' <= c <= '9' || c in {'.', '/', ':', '_', '-', '@', '%', '+', ',', '='}
  }

  /**
    What the shell hands on of a text printed between single quotes (section 2.2.2 of the POSIX
    Shell Command Language): a quote of its own ends and reopens them. None when the shell waits for
    another quote, or meets a character outside them that it may not leave alone.
   */
  function ShellText(s: string, quoted: bool): Option<string> {
    if s == "" then if quoted then Some("") else None
    else if s[0] == '\'' then ShellText(s[1..], !quoted)
    else if quoted || Inert(s[0]) then Before([s[0]], ShellText(s[1..], quoted))
    else None
  }

  /**
    What sed writes for a replacement, given the text it matched (the s command in the POSIX sed
    utility): & stands for the match, a backslash takes &, a backslash or the delimiter literally.
    None when the standard does not say, the script is an error, or it ends here and goes on with
    something else.
   */
  function SedText(s: string, matched: string): Option<string> {
    if s == "" then Some("")
    else if s[0] == '&' then Before(matched, SedText(s[1..], matched))
    else if s[0] == '\\' then
      if |s| >= 2 && s[1] in {'&', '\\', '|'} then Before([s[1]], SedText(s[2..], matched)) else None
    else if s[0] == '|' then None
    else Before([s[0]], SedText(s[1..], matched))
  }

  function Before(head: string, tail: Option<string>): Option<string> {
    match tail case None => None case Some(t) => Some(head + t)
  }

  /** The substitution on every pin line; the other lines do not match. */
  function HintLines(lines: seq<string>, script: string): Option<seq<string>> {
    if lines == [] then Some([])
    else
      var head := if IsPin(lines[0]) then Before(PIN, SedText(script, lines[0])) else Some(lines[0]);
      match (head, HintLines(lines[1..], script))
      case (Some(l), Some(ls)) => Some([l] + ls)
      case _ => None
  }

  /** What the printed line makes of .env. */
  function Hinted(env: string, image: string): Option<string> {
    match ShellText(image, true)
    case None => None
    case Some(script) => match HintLines(Lines(env), script) case None => None case Some(ls) => Some(Join(ls, '\n'))
  }

  predicate IsPlainChar(c: char) { c != '\'' && c != '&' && c != '\\' && c != '|' }

  /** The shell and sed take every character of the image for itself. */
  predicate Plain(image: string) { forall c <- image :: IsPlainChar(c) }

  // ----- A plain image is written as it is -----

  lemma {:induction false} PlainIsWritten(image: string, matched: string)
    requires Plain(image)
    ensures ShellText(image, true) == Some(image) && SedText(image, matched) == Some(image)
  {
    if image != "" {
      assert IsPlainChar(image[0]) && image == [image[0]] + image[1..];
      PlainIsWritten(image[1..], matched);
    }
  }

  lemma {:induction false} PlainLines(lines: seq<string>, image: string)
    requires Plain(image)
    ensures HintLines(lines, image) == Some(Moved(lines, PIN + image))
  {
    if lines != [] {
      PlainLines(lines[1..], image);
      PlainIsWritten(image, lines[0]);
      assert Moved(lines, PIN + image) == [Moved(lines, PIN + image)[0]] + Moved(lines[1..], PIN + image);
    }
  }

  // ----- Any other image is not -----

  function Unquoted(s: string): string {
    if s == "" then "" else if s[0] == '\'' then Unquoted(s[1..]) else [s[0]] + Unquoted(s[1..])
  }

  lemma {:induction false} ShellUnquotes(s: string, quoted: bool)
    ensures ShellText(s, quoted).Some? ==> ShellText(s, quoted).value == Unquoted(s)
  {
    if s != "" {
      ShellUnquotes(s[1..], quoted);
      ShellUnquotes(s[1..], !quoted);
    }
  }

  predicate Quotes(s: string) { forall c <- s :: c == '\'' }

  predicate Lagging(s: string) { forall c <- s :: c == '\'' || c == '\\' }

  /** The first character that is no quote. */
  lemma {:induction false} FirstUnquoted(s: string) returns (quotes: string, rest: string)
    requires Unquoted(s) != ""
    ensures Quotes(quotes) && s == quotes + [Unquoted(s)[0]] + rest && Unquoted(s)[1..] == Unquoted(rest)
  {
    if s[0] == '\'' {
      quotes, rest := FirstUnquoted(s[1..]);
      quotes := "'" + quotes;
    } else {
      quotes, rest := "", s[1..];
    }
  }

  /** A match that starts with neither a quote, a backslash nor an ampersand; a pin line does. */
  predicate Ordinary(matched: string) { matched != "" && IsPlainChar(matched[0]) }

  /**
    What has fallen behind never catches up: a replacement that has dropped quotes or backslashes is
    never written as the text it came from.
   */
  lemma {:induction false} NeverCatchesUp(behind: string, s: string, matched: string)
    requires Lagging(behind) && behind != "" && Ordinary(matched)
    ensures SedText(Unquoted(s), matched) != Some(behind + s)
    decreases |s|
  {
    if s != "" {
      if s[0] == '\'' {
        assert behind + s == (behind + "'") + s[1..];
        NeverCatchesUp(behind + "'", s[1..], matched);
      } else {
        var u := Unquoted(s);
        assert u == [s[0]] + Unquoted(s[1..]) && u[1..] == Unquoted(s[1..]);
        assert behind[0] in behind && (behind + s)[0] == behind[0];
        if s[0] == '\\' && |u| >= 2 && u[1] == '\\' {
          BackslashFallsBehind(behind, s, matched);
        }
      }
    }
  }

  lemma {:induction false} BackslashFallsBehind(behind: string, s: string, matched: string)
    requires Lagging(behind) && Ordinary(matched)
    requires s != "" && s[0] == '\\' && Unquoted(s[1..]) != "" && Unquoted(s[1..])[0] == '\\'
    ensures SedText(Unquoted(s), matched) != Some(behind + s)
    decreases |s|, 0
  {
    var quotes, rest := FirstUnquoted(s[1..]);
    var u := Unquoted(s);
    assert u == "\\" + Unquoted(s[1..]) && u[2..] == Unquoted(s[1..])[1..];
    assert s == "\\" + quotes + "\\" + rest;
    var more := behind + "\\" + quotes + "\\";
    assert behind + s == more + rest;
    assert forall c <- more :: c in behind || c == '\\' || c in quotes;
    assert forall c <- more[1..] :: c in more;
    NeverCatchesUp(more[1..], rest, matched);
    assert more[1..] + rest == (more + rest)[1..];
  }

  /** An image that is not plain is never what the printed line writes. */
  lemma {:induction false} OnlyPlainIsWritten(image: string, matched: string)
    requires !Plain(image) && Ordinary(matched)
    ensures SedText(Unquoted(image), matched) != Some(image)
  {
    var u := Unquoted(image);
    if IsPlainChar(image[0]) {
      assert image == [image[0]] + image[1..] && u[1..] == Unquoted(image[1..]);
      OnlyPlainIsWritten(image[1..], matched);
    } else if image[0] == '\'' {
      NeverCatchesUp("'", image[1..], matched);
      assert "'" + image[1..] == image;
    } else if image[0] == '\\' && |u| >= 2 && u[1] == '\\' {
      assert u[1..] == Unquoted(image[1..]);
      BackslashFallsBehind("", image, matched);
      assert "" + image == image;
    }
  }

  // ----- The exact condition -----

  lemma {:induction false} UnquotedLacks(s: string, c: char)
    requires c !in s
    ensures c !in Unquoted(s)
  {
    if s != "" {
      UnquotedLacks(s[1..], c);
    }
  }

  lemma {:induction false} SedLacks(s: string, matched: string, c: char)
    requires c !in s && c !in matched
    ensures SedText(s, matched).Some? ==> c !in SedText(s, matched).value
  {
    if s != "" {
      SedLacks(s[1..], matched, c);
      if |s| >= 2 {
        SedLacks(s[2..], matched, c);
      }
    }
  }

  /** The lines the substitution leaves: as many, pin by pin and line by line, and each one line. */
  lemma {:induction false} HintedLine(lines: seq<string>, script: string, i: nat)
    requires i < |lines| && HintLines(lines, script).Some?
    ensures var ls := HintLines(lines, script).value;
            && |ls| == |lines|
            && (IsPin(lines[i]) ==> SedText(script, lines[i]).Some? && ls[i] == PIN + SedText(script, lines[i]).value)
            && (!IsPin(lines[i]) ==> ls[i] == lines[i])
  {
    if i > 0 {
      HintedLine(lines[1..], script, i - 1);
    } else if |lines| > 1 {
      HintedLine(lines[1..], script, 0);
    }
  }

  lemma HintedIsClean(lines: seq<string>, script: string)
    requires HintLines(lines, script).Some? && Clean(lines, '\n') && '\n' !in script
    ensures Clean(HintLines(lines, script).value, '\n') && |HintLines(lines, script).value| == |lines|
  {
    if lines != [] {
      HintedLine(lines, script, 0);
    }
    forall i | 0 <= i < |HintLines(lines, script).value| ensures '\n' !in HintLines(lines, script).value[i] {
      HintedLine(lines, script, i);
      SedLacks(script, lines[i], '\n');
    }
  }

  /** The printed line that gives a file back wrote each pin as that pin's image. */
  lemma WrittenBack(env: string, target: string, script: string)
    requires HasPin(env) && '\n' !in target && '\n' !in script
    requires var ls := HintLines(Moved(Lines(env), PIN + target), script); ls.Some? && Join(ls.value, '\n') == env
    ensures SedText(script, PIN + target) == Some(CurrentImage(env))
  {
    var lines := Lines(env);
    var moved := Moved(lines, PIN + target);
    var ls := HintLines(moved, script).value;
    LinesAreClean(env);
    MovedIsClean(env, target);
    HintedIsClean(moved, script);
    SplitJoin(ls, '\n');
    var image := CurrentImage(env);
    var i :| 0 <= i < |lines| && lines[i] == PIN + image;
    HintedLine(moved, script, i);
    assert moved[i] == PIN + target && IsPin(moved[i]);
    assert (PIN + SedText(script, moved[i]).value)[|PIN|..] == (PIN + image)[|PIN|..];
    assert (PIN + image)[|PIN|..] == image;
  }

  /**
    The printed line, run on an updated .env, gives the old .env back exactly when all its pin lines
    were one line and the image they named holds no quote, ampersand, backslash or bar.
   */
  lemma RestoresEnvIff(env: string, target: string)
    requires HasPin(env) && '\n' !in target
    ensures Hinted(Repin(env, target), CurrentImage(env)) == Some(env) <==>
            OnePin(Lines(env)) && Plain(CurrentImage(env))
  {
    var image, moved := CurrentImage(env), Moved(Lines(env), PIN + target);
    RepinLines(env, target);
    if Plain(image) {
      PlainIsWritten(image, "");
      PlainLines(moved, image);
      RollbackHintRestoresEnv(env, target);
      assert Hinted(Repin(env, target), image) == Some(Join(Moved(moved, PIN + image), '\n'));
    } else {
      ShellUnquotes(image, true);
      CurrentImageIsOneLine(env);
      UnquotedLacks(image, '\n');
      OnlyPlainIsWritten(image, PIN + target);
      if Hinted(Repin(env, target), image) == Some(env) {
        WrittenBack(env, target, Unquoted(image));
        assert false;
      }
    }
  }

  /** A value quoted in .env, which Docker Compose allows, comes back without its quotes. */
  lemma QuotedImageComesBackBare(reference: string, target: string)
    requires '\n' !in target && forall c <- reference :: Inert(c)
    ensures Hinted(PIN + target, "'" + reference + "'") == Some(PIN + reference)
  {
    InertIsHandedOn(reference);
    var quoted := "'" + reference + "'";
    assert quoted[1..] == reference + "'";
    SplitClean(PIN + target, '\n');
    PlainLines([PIN + target], reference);
    assert Moved([PIN + target], PIN + reference) == [PIN + reference];
  }

  lemma {:induction false} InertIsHandedOn(reference: string)
    requires forall c <- reference :: Inert(c)
    ensures ShellText(reference + "'", false) == Some(reference) && Plain(reference)
  {
    var s := reference + "'";
    if reference == "" {
      assert s[1..] == "";
    } else {
      InertIsHandedOn(reference[1..]);
      assert reference[0] in reference && s[1..] == reference[1..] + "'";
      assert [reference[0]] + reference[1..] == reference;
    }
  }

  /** An ampersand in the image comes back as the pin line that stood there. */
  lemma AmpersandComesBackAsMatch(a: string, b: string, target: string)
    requires '\n' !in target && '\n' !in a && '\n' !in b && Plain(a) && Plain(b)
    ensures Hinted(PIN + target, a + "&" + b) == Some(PIN + (a + (PIN + target) + b))
  {
    var script, matched := a + "&" + b, PIN + target;
    Written(a, "&" + b, matched);
    assert a + ("&" + b) == script;
    PlainIsWritten(b, matched);
    assert ("&" + b)[1..] == b;
    UnquotedText(script);
    SplitClean(matched, '\n');
    assert ("&" + b)[0] == '&' && Before(matched, Some(b)) == Some(matched + b);
    assert SedText("&" + b, matched) == Before(matched, SedText(b, matched));
    assert SedText(script, matched) == Some(a + (matched + b));
    assert a + (matched + b) == a + matched + b;
    assert IsPin(matched) && [matched][1..] == [] && HintLines([], script) == Some([]);
    assert [PIN + (a + matched + b)] + [] == [PIN + (a + matched + b)];
    assert HintLines([matched], script) == Some([PIN + (a + matched + b)]);
  }

  /** A backslash before an ampersand, a backslash or a bar is lost; the character itself comes back. */
  lemma EscapeIsLost(a: string, c: char, b: string, target: string)
    requires '\n' !in target && '\n' !in a && '\n' !in b && Plain(a) && Plain(b) && c in {'&', '\\', '|'}
    ensures Hinted(PIN + target, a + ['\\', c] + b) == Some(PIN + (a + [c] + b))
  {
    var tail, matched := ['\\', c] + b, PIN + target;
    assert a + ['\\', c] + b == a + tail && a + ([c] + b) == a + [c] + b;
    Written(a, tail, matched);
    PlainIsWritten(b, matched);
    assert tail[0] == '\\' && tail[1] == c && tail[2..] == b;
    assert SedText(a + tail, matched) == Some(a + ([c] + b));
    PlainHint(target, a + tail, Some(a + [c] + b));
  }

  /** A bar ends the replacement: the line is then no substitution that sed could carry out. */
  lemma BarIsNoScript(a: string, b: string, target: string)
    requires '\n' !in target && Plain(a) && '\'' !in b
    ensures Hinted(PIN + target, a + "|" + b) == None
  {
    assert a + "|" + b == a + ("|" + b);
    Written(a, "|" + b, PIN + target);
    assert ("|" + b)[0] == '|';
    PlainHint(target, a + ("|" + b), None);
  }

  /** The printed line over a file of one pin, for an image without quotes. */
  lemma PlainHint(target: string, image: string, text: Option<string>)
    requires '\n' !in target && '\'' !in image && SedText(image, PIN + target) == text
    ensures Hinted(PIN + target, image) == Before(PIN, text)
  {
    UnquotedText(image);
    SplitClean(PIN + target, '\n');
    assert IsPin(PIN + target) && [PIN + target][1..] == [] && HintLines([], image) == Some([]);
    match text
    case None =>
    case Some(t) =>
      assert [PIN + t] + [] == [PIN + t];
      assert HintLines([PIN + target], image) == Some([PIN + t]);
  }

  /** A plain text is written before whatever follows. */
  lemma {:induction false} Written(a: string, rest: string, matched: string)
    requires Plain(a)
    ensures SedText(a + rest, matched) == Before(a, SedText(rest, matched))
  {
    if a == "" {
      assert a + rest == rest;
      match SedText(rest, matched) case None => case Some(t) => assert "" + t == t;
    } else {
      assert IsPlainChar(a[0]) && (a + rest)[0] == a[0] && (a + rest)[1..] == a[1..] + rest;
      Written(a[1..], rest, matched);
      match SedText(rest, matched) case None => case Some(t) => assert [a[0]] + (a[1..] + t) == a + t;
    }
  }

  lemma {:induction false} UnquotedText(s: string)
    requires '\'' !in s
    ensures ShellText(s, true) == Some(s)
  {
    if s != "" {
      UnquotedText(s[1..]);
      assert [s[0]] + s[1..] == s;
    }
  }
}
