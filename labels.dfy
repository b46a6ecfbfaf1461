/** The two label formatters of the design map: the technology-integration
    level shown in the map header, and the key-application tag shown on an
    activity box, broken over two lines when it is long. */
module Labels {
  import opened JsText
  import Activities

  /** `word.charAt(0).toUpperCase() + word.slice(1)`. */
  function Capitalize(word: string): (r: string)
    ensures |r| == |word|
  {
    if word == [] then [] else [ToUpper(word[0])] + word[1..]
  }

  /** `formatTechIntegration`: split on '-', capitalise each piece, join
      with a space. */
  function FormatTechIntegration(value: string): string {
    var pieces := Split(value, '-');
    Join(seq(|pieces|, i requires 0 <= i < |pieces| => Capitalize(pieces[i])), " ")
  }

  /** What the formatter makes of character `i` of `s`: a '-' becomes a
      space, and the first character of each piece is upper-cased. */
  function TechChar(s: string, i: nat): char
    requires i < |s|
  {
    if s[i] == '-' then ' '
    else if i == 0 || s[i - 1] == '-' then ToUpper(s[i])
    else s[i]
  }

  predicate TechPointwise(s: string, t: string) {
    |t| == |s| && forall i :: 0 <= i < |s| ==> t[i] == TechChar(s, i)
  }

  lemma CapitalizePointwise(p: string)
    requires '-' !in p
    ensures TechPointwise(p, Capitalize(p))
  {
  }

  function CapitalizeAll(pieces: seq<string>): (r: seq<string>)
    ensures |r| == |pieces|
  {
    seq(|pieces|, i requires 0 <= i < |pieces| => Capitalize(pieces[i]))
  }

  /** Joining '-'-free pieces with '-' and their capitalised forms with ' '
      gives texts that agree character by character as TechChar says. */
  lemma {:induction false} JoinCapitalizedPointwise(pieces: seq<string>)
    requires |pieces| >= 1
    requires forall i :: 0 <= i < |pieces| ==> '-' !in pieces[i]
    ensures TechPointwise(Join(pieces, "-"), Join(CapitalizeAll(pieces), " "))
  {
    var p := pieces[0];
    CapitalizePointwise(p);
    if |pieces| > 1 {
      var rest := pieces[1..];
      JoinCapitalizedPointwise(rest);
      assert CapitalizeAll(pieces)[1..] == CapitalizeAll(rest);
      var s', t' := Join(rest, "-"), Join(CapitalizeAll(rest), " ");
      var s := p + "-" + s';
      var t := Capitalize(p) + " " + t';
      assert Join(pieces, "-") == s;
      assert Join(CapitalizeAll(pieces), " ") == t;
      forall i | 0 <= i < |s| ensures t[i] == TechChar(s, i) {
        if i < |p| {
          assert s[i] == p[i] && t[i] == Capitalize(p)[i];
          assert i > 0 ==> s[i - 1] == p[i - 1];
          assert TechChar(s, i) == TechChar(p, i);
        } else if i > |p| {
          var j := i - |p| - 1;
          assert s[i] == s'[j] && t[i] == t'[j];
          assert j > 0 ==> s[i - 1] == s'[j - 1];
          assert TechChar(s, i) == TechChar(s', j);
        }
      }
    }
  }

  /** `formatTechIntegration` keeps the length, turns every '-' into a
      space, upper-cases the first character and every character that
      follows a '-', and leaves every other character alone. */
  lemma FormatTechIntegrationPointwise(value: string)
    ensures TechPointwise(value, FormatTechIntegration(value))
  {
    var pieces := Split(value, '-');
    JoinSplit(value, '-');
    JoinCapitalizedPointwise(pieces);
  }

  /** `tag.split(' ').filter(Boolean)`. */
  function Words(tag: string): (ws: seq<string>)
    ensures forall i :: 0 <= i < |ws| ==> ws[i] != [] && ' ' !in ws[i]
  {
    NonEmpty(Split(tag, ' '))
  }

  function NonEmpty(pieces: seq<string>): (r: seq<string>)
    ensures forall i :: 0 <= i < |r| ==> r[i] != [] && r[i] in pieces
  {
    if pieces == [] then []
    else (if pieces[0] == [] then [] else [pieces[0]]) + NonEmpty(pieces[1..])
  }

  lemma {:induction false} NonEmptyOfNonEmpty(pieces: seq<string>)
    requires forall i :: 0 <= i < |pieces| ==> pieces[i] != []
    ensures NonEmpty(pieces) == pieces
  {
    if pieces != [] {
      NonEmptyOfNonEmpty(pieces[1..]);
    }
  }

  /** Reading the words back from words joined by single spaces gives
      the same words. */
  lemma WordsOfJoin(ws: seq<string>)
    requires forall i :: 0 <= i < |ws| ==> ws[i] != [] && ' ' !in ws[i]
    ensures Words(Join(ws, " ")) == ws
  {
    if ws == [] {
      assert Split([], ' ') == [[]];
    } else {
      SplitJoin(ws, ' ');
      NonEmptyOfNonEmpty(ws);
    }
  }

  /** `formatKeyAppLabel`: labels of more than two words are broken into
      two lines at the ceiling of half the word count. */
  function FormatKeyAppLabel(tag: string): string {
    if tag == [] then []
    else
      var words := Words(tag);
      if |words| <= 2 then tag
      else
        var mid := (|words| + 1) / 2;
        Join(words[..mid], " ") + "<br>" + Join(words[mid..], " ")
  }

  /** An empty tag stays empty and one of at most two words is kept as
      typed. */
  lemma FormatKeyAppLabelShort(tag: string)
    ensures tag == [] ==> FormatKeyAppLabel(tag) == []
    ensures tag != [] && |Words(tag)| <= 2 ==> FormatKeyAppLabel(tag) == tag
  {
  }

  lemma WordsOfEmpty()
    ensures Words([]) == []
  {
    assert Split([], ' ') == [[]];
  }

  /** Cutting a list of words in two and joining each part with spaces
      loses no word and moves none. */
  lemma HalvesKeepWords(ws: seq<string>, m: nat)
    requires forall i :: 0 <= i < |ws| ==> ws[i] != [] && ' ' !in ws[i]
    requires m <= |ws|
    ensures Words(Join(ws[..m], " ")) == ws[..m]
    ensures Words(Join(ws[m..], " ")) == ws[m..]
    ensures ws[..m] + ws[m..] == ws
  {
    WordsOfJoin(ws[..m]);
    WordsOfJoin(ws[m..]);
  }

  /** A tag of more than two words becomes two lines joined by `<br>`:
      reading the words back from the two lines gives the tag's words,
      the first line holding ⌈n/2⌉ of them and the second the other
      ⌊n/2⌋. */
  lemma FormatKeyAppLabelLines(tag: string)
    requires |Words(tag)| > 2
    ensures var n := |Words(tag)|;
      var line1 := Join(Words(tag)[..(n + 1) / 2], " ");
      var line2 := Join(Words(tag)[(n + 1) / 2..], " ");
      && FormatKeyAppLabel(tag) == line1 + "<br>" + line2
      && Words(line1) + Words(line2) == Words(tag)
      && |Words(line1)| == |Words(line2)| + n % 2
  {
    FormatKeyAppLabelLong(tag);
    LineWords(Words(tag));
  }

  /** The two halves of a list of words, each joined with spaces, read
      back as the first ⌈n/2⌉ and the last ⌊n/2⌋ of the words. */
  lemma LineWords(ws: seq<string>)
    requires forall i :: 0 <= i < |ws| ==> ws[i] != [] && ' ' !in ws[i]
    ensures var line1 := Join(ws[..(|ws| + 1) / 2], " ");
      var line2 := Join(ws[(|ws| + 1) / 2..], " ");
      && Words(line1) + Words(line2) == ws
      && |Words(line1)| == |Words(line2)| + |ws| % 2
  {
    var m := (|ws| + 1) / 2;
    HalvesKeepWords(ws, m);
    assert |ws[..m]| == m && |ws[m..]| == |ws| - m;
    assert m == |ws| - m + |ws| % 2;
  }

  lemma FormatKeyAppLabelLong(tag: string)
    requires |Words(tag)| > 2
    ensures var ws := Words(tag);
      FormatKeyAppLabel(tag) == Join(ws[..(|ws| + 1) / 2], " ") + "<br>" + Join(ws[(|ws| + 1) / 2..], " ")
  {
    WordsOfEmpty();
    assert tag != [];
  }

  /** `keyApplications.find(k => k.value === code)?.label || code`: the
      label of a known key-application code, otherwise the code itself. */
  function KeyAppLabel(code: string): (r: string)
    ensures code in Activities.KeyApplications ==>
      exists i :: 0 <= i < |Activities.KeyApplications| && Activities.KeyApplications[i] == code && r == Activities.KeyApplicationLabels[i]
    ensures code !in Activities.KeyApplications ==> r == code
  {
    match IndexOf(Activities.KeyApplications, code)
    case Some(i) => Activities.KeyApplicationLabels[i]
    case None => code
  }
}
