/** Topic filters: validity, and the regular expression a wildcard filter is turned into (src/mqtt/Common.cpp). */
module TopicFilter {
  import opened MqttTypes

  const PLUS: byte := '+' as int
  const HASH: byte := '#' as int
  const DOLLAR: byte := '$' as int
  const SLASH: byte := '/' as int
  const BACKSLASH: byte := '\\' as int
  const OPEN_CLASS: byte := '[' as int
  const CARET: byte := '^' as int
  const CLOSE_CLASS: byte := ']' as int
  const STAR: byte := '*' as int

  /** The characters of section 4.7.1 of MQTT 3.1.1 and of the regular expressions, by their codes. */
  lemma CharacterCodes()
    ensures PLUS == 0x2B && HASH == 0x23 && DOLLAR == 0x24 && SLASH == 0x2F
    ensures SINGLE_LEVEL_REGEX == [0x5B, 0x5E, 0x2F, 0x5D, 0x2A]
    ensures MULTI_LEVEL_REGEX == [0x5B, 0x5E, 0xEC, 0x86, 0xBF, 0x5D, 0x2A]
  {
  }

  // ---------- levels ----------

  /** The `/`-separated levels of a topic: one more than it has slashes. */
  function Split(s: seq<byte>): (levels: seq<seq<byte>>)
    ensures |levels| >= 1
  {
    if s == [] then [[]]
    else
      var rest := Split(s[1..]);
      if s[0] == SLASH then [[]] + rest else [[s[0]] + rest[0]] + rest[1..]
  }

  /** Every `+` fills its whole level; a `#` fills the whole of the last level. */
  predicate LevelsValid(levels: seq<seq<byte>>) {
    levels == [] ||
    (&& (PLUS in levels[0] ==> levels[0] == [PLUS])
     && (HASH in levels[0] ==> levels[0] == [HASH] && |levels| == 1)
     && LevelsValid(levels[1..]))
  }

  /** Section 4.7.1 of MQTT 3.1.1, with the empty filter let through and the single character `$` refused. */
  predicate ValidFilter(name: seq<byte>) {
    name != [DOLLAR] && LevelsValid(Split(name))
  }

  /** What the character loop asks of position `i`. */
  predicate PositionOk(s: seq<byte>, i: nat)
    requires i < |s|
  {
    && (s[i] == PLUS ==> (i == 0 || s[i - 1] == SLASH) && (i == |s| - 1 || s[i + 1] == SLASH))
    && (s[i] == HASH ==> (i == 0 || s[i - 1] == SLASH) && i == |s| - 1)
  }

  /** The levels of `s` from position `k` on; the first of them may be the rest of a level that began before `k`, and
      then holds no wildcard. */
  predicate SuffixValid(s: seq<byte>, k: nat)
    requires k <= |s|
  {
    var levels := Split(s[k..]);
    LevelsValid(levels) && (k > 0 && s[k - 1] != SLASH ==> PLUS !in levels[0] && HASH !in levels[0])
  }

  /** Checking each character against its neighbours is checking the levels. */
  lemma {:induction false} PositionsAreLevels(s: seq<byte>, k: nat)
    requires k <= |s|
    ensures (forall i :: k <= i < |s| ==> PositionOk(s, i)) <==> SuffixValid(s, k)
    decreases |s| - k
  {
    if k == |s| {
      assert s[k..] == [];
      assert Split(s[k..])[1..] == [] && LevelsValid(Split(s[k..]));
    } else {
      SuffixStep(s, k);
      PositionsAreLevels(s, k + 1);
      assert (forall i :: k <= i < |s| ==> PositionOk(s, i)) <==>
             PositionOk(s, k) && (forall i :: k + 1 <= i < |s| ==> PositionOk(s, i));
    }
  }

  lemma SuffixStep(s: seq<byte>, k: nat)
    requires k < |s|
    ensures SuffixValid(s, k) <==> PositionOk(s, k) && SuffixValid(s, k + 1)
  {
    assert s[k..][1..] == s[k + 1..];
    var rest := Split(s[k + 1..]);
    FirstLevelEmpty(s[k + 1..]);
    if s[k] == SLASH {
      assert Split(s[k..])[1..] == rest;
    } else {
      LevelBegins(s[k], rest);
      assert Split(s[k..]) == [[s[k]] + rest[0]] + rest[1..];
      hide Split, LevelsValid;
      if s[k] == PLUS {
        assert PositionOk(s, k) <==> (k == 0 || s[k - 1] == SLASH) && rest[0] == [];
      } else if s[k] == HASH {
        assert PositionOk(s, k) <==> (k == 0 || s[k - 1] == SLASH) && |rest| == 1 && rest[0] == [];
      }
    }
  }

  /** Putting a character other than a slash in front of the first level. */
  lemma LevelBegins(c: byte, rest: seq<seq<byte>>)
    requires |rest| >= 1
    ensures var levels := [[c] + rest[0]] + rest[1..];
            && (PLUS in levels[0] <==> c == PLUS || PLUS in rest[0])
            && (HASH in levels[0] <==> c == HASH || HASH in rest[0])
            && (c == PLUS ==> (LevelsValid(levels) <==> rest[0] == [] && LevelsValid(rest)))
            && (c == HASH ==> (LevelsValid(levels) <==> rest[0] == [] && |rest| == 1))
            && (c != PLUS && c != HASH ==>
                  (LevelsValid(levels) <==> PLUS !in rest[0] && HASH !in rest[0] && LevelsValid(rest)))
  {
    var levels := [[c] + rest[0]] + rest[1..];
    assert levels[1..] == rest[1..];
    assert levels[0][1..] == rest[0];
  }

  lemma SingleCharacterValid(name: seq<byte>)
    requires |name| == 1
    ensures LevelsValid(Split(name))
  {
    assert Split(name[1..]) == [[]];
    assert LevelsValid([[]]);
    if name[0] == SLASH {
      assert Split(name) == [[], []];
      assert Split(name)[1..] == [[]];
    } else {
      LevelBegins(name[0], [[]]);
    }
  }

  lemma FirstLevelEmpty(s: seq<byte>)
    ensures Split(s)[0] == [] <==> s == [] || s[0] == SLASH
    ensures |Split(s)| == 1 && Split(s)[0] == [] <==> s == []
  {
  }

  /** The validity loop accepts exactly the valid filters. */
  method IsValidTopicName(name: seq<byte>) returns (ok: bool)
    ensures ok <==> ValidFilter(name)
  {
    if |name| == 1 {
      SingleCharacterValid(name);
      if DOLLAR == name[0] {
        return false;
      } else {
        return true;
      }
    }
    PositionsAreLevels(name, 0);
    assert name[0..] == name;
    var i := 0;
    while i < |name|
      invariant 0 <= i <= |name|
      invariant forall j :: 0 <= j < i ==> PositionOk(name, j)
    {
      ghost var positionOk := PositionOk(name, i);
      if name[i] == PLUS {
        if i == 0 {
          if name[i + 1] != SLASH && i + 1 != |name| {
            return false;
          }
        } else if i + 1 == |name| {
          if name[i - 1] != SLASH {
            return false;
          }
        } else if name[i - 1] != SLASH || name[i + 1] != SLASH {
          return false;
        }
      } else if name[i] == HASH {
        if i + 1 != |name| {
          return false;
        } else if i != 0 && name[i - 1] != SLASH {
          return false;
        }
      }
      i := i + 1;
    }
    return true;
  }

  // ---------- matching level by level ----------

  /** What the client's translation means: `+` takes exactly one level, a final `#` one or more. */
  predicate LevelMatch(filter: seq<seq<byte>>, topic: seq<seq<byte>>) {
    if filter == [] then topic == []
    else if topic == [] then false
    else if filter[0] == [HASH] then true
    else (filter[0] == [PLUS] || filter[0] == topic[0]) && LevelMatch(filter[1..], topic[1..])
  }

  /** What section 4.7.1.2 of MQTT 3.1.1 asks: a final `#` takes any number of levels, none included. */
  predicate StandardLevelMatch(filter: seq<seq<byte>>, topic: seq<seq<byte>>) {
    if filter == [] then topic == []
    else if filter[0] == [HASH] then true
    else if topic == [] then false
    else (filter[0] == [PLUS] || filter[0] == topic[0]) && StandardLevelMatch(filter[1..], topic[1..])
  }

  /** The topic is what stands before a final `/#`. */
  predicate ParentLevel(filter: seq<seq<byte>>, topic: seq<seq<byte>>) {
    && |filter| == |topic| + 1
    && filter[|topic|] == [HASH]
    && LevelMatch(filter[..|topic|], topic)
  }

  /** A filter that begins with a wildcard, and a topic that begins with `$`: section 4.7.2 keeps them apart. */
  predicate WildcardAgainstDollar(filter: seq<byte>, topic: seq<byte>) {
    filter != [] && topic != [] && (filter[0] == PLUS || filter[0] == HASH) && topic[0] == DOLLAR
  }

  predicate StandardMatch(filter: seq<byte>, topic: seq<byte>) {
    !WildcardAgainstDollar(filter, topic) && StandardLevelMatch(Split(filter), Split(topic))
  }

  lemma {:induction false} StandardLevels(filter: seq<seq<byte>>, topic: seq<seq<byte>>)
    requires LevelsValid(filter)
    ensures StandardLevelMatch(filter, topic) <==> LevelMatch(filter, topic) || ParentLevel(filter, topic)
    decreases |filter|
  {
    if filter != [] && topic != [] && filter[0] != [HASH] {
      StandardLevels(filter[1..], topic[1..]);
      if |filter| == |topic| + 1 {
        assert filter[..|topic|][1..] == filter[1..][..|topic| - 1];
      }
    }
  }

  /** Exactly where the client parts from the standard: on the parent topic of a `#` filter, which it does not match,
      and on `$` topics, which a leading wildcard does match. */
  lemma StandardAgreement(filter: seq<byte>, topic: seq<byte>)
    requires ValidFilter(filter)
    ensures LevelMatch(Split(filter), Split(topic)) == StandardMatch(filter, topic) <==>
            if WildcardAgainstDollar(filter, topic) then !LevelMatch(Split(filter), Split(topic))
            else !ParentLevel(Split(filter), Split(topic))
  {
    StandardLevels(Split(filter), Split(topic));
    if ParentLevel(Split(filter), Split(topic)) {
      ParentNotMatched(Split(filter), Split(topic));
    }
  }

  lemma {:induction false} ParentNotMatched(filter: seq<seq<byte>>, topic: seq<seq<byte>>)
    requires LevelsValid(filter) && ParentLevel(filter, topic)
    ensures !LevelMatch(filter, topic)
    decreases |filter|
  {
    if topic != [] {
      assert filter[..|topic|][1..] == filter[1..][..|topic| - 1];
      assert filter[0] == filter[..|topic|][0];
      if filter[0] != [HASH] {
        assert filter[1..][|topic| - 1] == [HASH];
        ParentNotMatched(filter[1..], topic[1..]);
      }
    }
  }

  // ---------- the translation ----------

  predicate HasWildcard(filter: seq<byte>) {
    HASH in filter || PLUS in filter
  }

  /** `[^/]*` */
  const SINGLE_LEVEL_REGEX: seq<byte> := [OPEN_CLASS, CARET, SLASH, CLOSE_CLASS, STAR]

  /** `[^x]*` with x the placeholder U+C1BF, which is three bytes of UTF-8. */
  const MULTI_LEVEL_REGEX: seq<byte> := [OPEN_CLASS, CARET, 0xEC, 0x86, 0xBF, CLOSE_CLASS, STAR]

  function Piece(c: byte): seq<byte> {
    if c == PLUS then SINGLE_LEVEL_REGEX
    else if c == HASH then MULTI_LEVEL_REGEX
    else if c == DOLLAR then [BACKSLASH, DOLLAR]
    else [c]
  }

  function Pieces(filter: seq<byte>): seq<byte> {
    if filter == [] then [] else Piece(filter[0]) + Pieces(filter[1..])
  }

  /** The text stored with the subscription: empty for a filter without wildcards. */
  function RegexText(filter: seq<byte>): seq<byte> {
    if HasWildcard(filter) then Pieces(filter) else []
  }

  lemma {:induction false} PiecesAppend(done: seq<byte>, c: byte)
    ensures Pieces(done + [c]) == Pieces(done) + Piece(c)
    decreases |done|
  {
    hide Piece;
    if done == [] {
      assert [c][1..] == [];
    } else {
      PiecesAppend(done[1..], c);
      assert (done + [c])[1..] == done[1..] + [c];
    }
  }

  /** The translation loop of the Subscription constructor. */
  method BuildRegex(filter: seq<byte>) returns (regex: seq<byte>)
    ensures regex == RegexText(filter)
  {
    regex := [];
    if HASH in filter || PLUS in filter {
      var i := 0;
      while i < |filter|
        invariant 0 <= i <= |filter|
        invariant regex == Pieces(filter[..i])
      {
        var it := filter[i];
        PiecesAppend(filter[..i], it);
        assert filter[..i + 1] == filter[..i] + [it];
        if it == PLUS {
          regex := regex + SINGLE_LEVEL_REGEX;
        } else if it == HASH {
          regex := regex + MULTI_LEVEL_REGEX;
        } else if it == DOLLAR {
          regex := regex + [BACKSLASH] + [DOLLAR];
        } else {
          regex := regex + [it];
        }
        i := i + 1;
      }
      assert filter[..i] == filter;
    }
  }

  // ---------- the part of ECMAScript regular expressions the translation uses ----------

  /** A literal byte, or any run of bytes outside a class. */
  datatype Atom = Literal(c: byte) | RunOutside(class_: seq<byte>)

  /** The characters with a meaning of their own in a regular expression: ^ $ \ . * + ? ( ) [ ] { } | */
  predicate Meta(c: byte) {
    c in {0x5E, 0x24, 0x5C, 0x2E, 0x2A, 0x2B, 0x3F, 0x28, 0x29, 0x5B, 0x5D, 0x7B, 0x7D, 0x7C}
  }

  /** The members of a class up to its closing bracket, and how many characters that took. */
  function ParseClass(text: seq<byte>): Option<seq<byte>> {
    if text == [] then None
    else if text[0] == CLOSE_CLASS then Some([])
    else if Meta(text[0]) || text[0] == 0x2D then None
    else match ParseClass(text[1..])
      case None => None
      case Some(members) => Some([text[0]] + members)
  }

  /** Reads a regular expression made of literals, escaped metacharacters and starred negated classes; anything else
      is not part of this model. */
  function ParseRegex(text: seq<byte>): Option<seq<Atom>>
    decreases |text|
  {
    if text == [] then Some([])
    else if text[0] == OPEN_CLASS then
      if |text| < 2 || text[1] != CARET then None
      else match ParseClass(text[2..])
        case None => None
        case Some(members) =>
          var after := 2 + |members| + 1;
          if after < |text| && text[after] == STAR then Prepend(RunOutside(members), ParseRegex(text[after + 1..]))
          else None
    else if text[0] == BACKSLASH then
      if |text| < 2 || !Meta(text[1]) then None else Prepend(Literal(text[1]), ParseRegex(text[2..]))
    else if Meta(text[0]) then None
    else Prepend(Literal(text[0]), ParseRegex(text[1..]))
  }

  function Prepend(a: Atom, rest: Option<seq<Atom>>): Option<seq<Atom>> {
    match rest
    case None => None
    case Some(atoms) => Some([a] + atoms)
  }

  /** Does the expression match the whole of `s`? A run may stop anywhere. */
  predicate FullMatch(atoms: seq<Atom>, s: seq<byte>)
    decreases |atoms|, |s|
  {
    if atoms == [] then s == []
    else match atoms[0]
      case Literal(c) => s != [] && s[0] == c && FullMatch(atoms[1..], s[1..])
      case RunOutside(class_) => FullMatch(atoms[1..], s) || (s != [] && s[0] !in class_ && FullMatch(atoms, s[1..]))
  }

  /** The topic is handed to the matcher as a C string, which ends at its first zero byte. */
  function CString(s: seq<byte>): seq<byte> {
    if s == [] || s[0] == 0 then [] else [s[0]] + CString(s[1..])
  }

  predicate RegexMatch(text: seq<byte>, topic: seq<byte>) {
    match ParseRegex(text)
    case None => false
    case Some(atoms) => FullMatch(atoms, CString(topic))
  }

  // ---------- the translation preserves meaning ----------

  /** No metacharacter but `$`, which is escaped, and the wildcard `+`. */
  predicate Translatable(filter: seq<byte>) {
    forall i :: 0 <= i < |filter| ==> filter[i] == DOLLAR || filter[i] == PLUS || !Meta(filter[i])
  }

  const MULTI_LEVEL_CLASS: seq<byte> := [0xEC, 0x86, 0xBF]

  function AtomFor(c: byte): Atom {
    if c == PLUS then RunOutside([SLASH])
    else if c == HASH then RunOutside(MULTI_LEVEL_CLASS)
    else Literal(c)
  }

  function AtomsFor(filter: seq<byte>): seq<Atom> {
    if filter == [] then [] else [AtomFor(filter[0])] + AtomsFor(filter[1..])
  }

  lemma SingleLevelParses(rest: seq<byte>)
    ensures ParseRegex(SINGLE_LEVEL_REGEX + rest) == Prepend(RunOutside([SLASH]), ParseRegex(rest))
  {
    var text := SINGLE_LEVEL_REGEX + rest;
    assert ParseClass(text[2..][1..]) == Some([]);
    assert ParseClass(text[2..]).value == [SLASH];
    assert text[5..] == rest;
  }

  lemma MultiLevelParses(rest: seq<byte>)
    ensures ParseRegex(MULTI_LEVEL_REGEX + rest) == Prepend(RunOutside(MULTI_LEVEL_CLASS), ParseRegex(rest))
  {
    var text := MULTI_LEVEL_REGEX + rest;
    assert ParseClass(text[5..]) == Some([]);
    assert text[4..][1..] == text[5..] && text[3..][1..] == text[4..] && text[2..][1..] == text[3..];
    assert ParseClass(text[4..]).value == [0xBF];
    assert ParseClass(text[3..]).value == [0x86, 0xBF];
    assert ParseClass(text[2..]).value == MULTI_LEVEL_CLASS;
    assert text[7..] == rest;
  }

  /** The regular expression reads back as one atom for each character of the filter. */
  lemma {:induction false} TextParses(filter: seq<byte>)
    requires Translatable(filter)
    ensures ParseRegex(Pieces(filter)) == Some(AtomsFor(filter))
    decreases |filter|
  {
    if filter != [] {
      TextParses(filter[1..]);
      var rest := Pieces(filter[1..]);
      var text := Piece(filter[0]) + rest;
      SingleLevelParses(rest);
      MultiLevelParses(rest);
      if filter[0] == DOLLAR {
        assert text[2..] == rest;
      } else if filter[0] != PLUS && filter[0] != HASH {
        assert text[1..] == rest;
      }
    }
  }

  /** None of the three bytes that the multi-level class leaves out. */
  predicate AvoidsPlaceholder(s: seq<byte>) {
    forall i :: 0 <= i < |s| ==> s[i] !in MULTI_LEVEL_CLASS
  }

  /** The last run takes everything, or nothing past one of the placeholder's bytes. */
  lemma {:induction false} HashTakesRest(s: seq<byte>)
    ensures FullMatch([RunOutside(MULTI_LEVEL_CLASS)], s) <==> AvoidsPlaceholder(s)
    decreases |s|
  {
    var atoms := [RunOutside(MULTI_LEVEL_CLASS)];
    assert atoms[1..] == [];
    if s != [] {
      HashTakesRest(s[1..]);
      assert AvoidsPlaceholder(s) <==> s[0] !in MULTI_LEVEL_CLASS && AvoidsPlaceholder(s[1..]) by {
        assert AvoidsPlaceholder(s[1..]) ==> forall i :: 1 <= i < |s| ==> s[i] == s[1..][i - 1];
      }
    }
  }

  /** Matching character by character is matching level by level. */
  lemma {:induction false} CharactersAreLevels(filter: seq<byte>, topic: seq<byte>)
    requires LevelsValid(Split(filter)) && AvoidsPlaceholder(topic)
    ensures FullMatch(AtomsFor(filter), topic) <==> LevelMatch(Split(filter), Split(topic))
    decreases |filter|, |topic|
  {
    var f, t := Split(filter), Split(topic);
    var atoms := AtomsFor(filter);
    if filter == [] {
      assert f == [[]];
      FirstLevelEmpty(topic);
      assert t[1..] == [] <==> |t| == 1;
    } else {
      var rest := Split(filter[1..]);
      assert atoms[1..] == AtomsFor(filter[1..]);
      if filter[0] == SLASH {
        SlashCase(filter, topic);
      } else if filter[0] == PLUS {
        PlusCase(filter, topic);
      } else if filter[0] == HASH {
        FirstLevelEmpty(filter[1..]);
        assert filter == [HASH];
        assert atoms == [RunOutside(MULTI_LEVEL_CLASS)];
        HashTakesRest(topic);
      } else {
        LiteralCase(filter, topic);
      }
    }
  }

  lemma SlashCase(filter: seq<byte>, topic: seq<byte>)
    requires filter != [] && filter[0] == SLASH
    requires LevelsValid(Split(filter)) && AvoidsPlaceholder(topic)
    ensures FullMatch(AtomsFor(filter), topic) <==> LevelMatch(Split(filter), Split(topic))
    decreases |filter|, |topic|, 0
  {
    var rest := Split(filter[1..]);
    assert AtomsFor(filter)[1..] == AtomsFor(filter[1..]);
    assert Split(filter)[1..] == rest;
    FirstLevelEmpty(topic);
    if topic != [] && topic[0] == SLASH {
      CharactersAreLevels(filter[1..], topic[1..]);
      assert Split(topic)[1..] == Split(topic[1..]);
    } else if topic == [] {
      assert Split(topic)[1..] == [];
      assert !LevelMatch(rest, []);
    }
  }

  lemma LiteralCase(filter: seq<byte>, topic: seq<byte>)
    requires filter != [] && filter[0] != SLASH && filter[0] != PLUS && filter[0] != HASH
    requires LevelsValid(Split(filter)) && AvoidsPlaceholder(topic)
    ensures FullMatch(AtomsFor(filter), topic) <==> LevelMatch(Split(filter), Split(topic))
    decreases |filter|, |topic|, 0
  {
    var rest := Split(filter[1..]);
    var f, t := Split(filter), Split(topic);
    assert AtomsFor(filter)[1..] == AtomsFor(filter[1..]);
    assert f[0] == [filter[0]] + rest[0] && f[1..] == rest[1..];
    FirstLevelEmpty(topic);
    LevelBegins(filter[0], rest);
    assert f[0][0] == filter[0];
    if topic != [] && topic[0] == filter[0] {
      var tail := Split(topic[1..]);
      CharactersAreLevels(filter[1..], topic[1..]);
      assert t[0] == [topic[0]] + tail[0] && t[1..] == tail[1..];
      assert f[0] == t[0] <==> rest[0] == tail[0] by {
        assert f[0][1..] == rest[0] && t[0][1..] == tail[0];
      }
      assert LevelMatch(rest, tail) <==> rest[0] == tail[0] && LevelMatch(rest[1..], tail[1..]);
    } else if topic != [] && topic[0] != SLASH {
      assert t[0][0] == topic[0];
    }
  }

  lemma PlusCase(filter: seq<byte>, topic: seq<byte>)
    requires filter != [] && filter[0] == PLUS
    requires LevelsValid(Split(filter)) && AvoidsPlaceholder(topic)
    ensures FullMatch(AtomsFor(filter), topic) <==> LevelMatch(Split(filter), Split(topic))
    decreases |filter|, |topic|, 0
  {
    var rest := Split(filter[1..]);
    var f, t := Split(filter), Split(topic);
    var atoms := AtomsFor(filter);
    assert atoms[1..] == AtomsFor(filter[1..]);
    assert f[0] == [PLUS] + rest[0] && f[1..] == rest[1..];
    LevelBegins(PLUS, rest);
    FirstLevelEmpty(filter[1..]);
    FirstLevelEmpty(topic);
    assert f[0] == [PLUS];
    CharactersAreLevels(filter[1..], topic);
    if topic != [] && topic[0] != SLASH {
      PlusCase(filter, topic[1..]);
      assert t[1..] == Split(topic[1..])[1..];
      assert !LevelMatch(rest, t);
      assert atoms[0] == RunOutside([SLASH]);
      assert FullMatch(atoms, topic) <==> FullMatch(atoms, topic[1..]);
    } else {
      assert FullMatch(atoms, topic) <==> FullMatch(atoms[1..], topic);
      assert LevelMatch(rest, t) <==> LevelMatch(rest[1..], t[1..]);
    }
  }

  predicate AsciiTopic(topic: seq<byte>) {
    forall i :: 0 <= i < |topic| ==> 0 < topic[i] < 0x80
  }

  lemma {:induction false} CStringOfAscii(topic: seq<byte>)
    requires forall i :: 0 <= i < |topic| ==> topic[i] != 0
    ensures CString(topic) == topic
    decreases |topic|
  {
    if topic != [] {
      CStringOfAscii(topic[1..]);
    }
  }

  /** The translation theorem: for every valid wildcard filter that can be translated and every ASCII topic name, the
      regular expression built character by character accepts the topic exactly when its levels match. */
  lemma TranslationPreservesMatching(filter: seq<byte>, topic: seq<byte>)
    requires ValidFilter(filter) && HasWildcard(filter) && Translatable(filter) && AsciiTopic(topic)
    ensures RegexText(filter) != []
    ensures RegexMatch(RegexText(filter), topic) <==> LevelMatch(Split(filter), Split(topic))
  {
    TextParses(filter);
    CStringOfAscii(topic);
    CharactersAreLevels(filter, topic);
  }

  /** Outside ASCII the placeholder shows: `#` accepts a topic exactly when it has none of the placeholder's bytes. */
  lemma HashOutsideAscii(topic: seq<byte>)
    requires forall i :: 0 <= i < |topic| ==> topic[i] != 0
    ensures RegexMatch(RegexText([HASH]), topic) <==> AvoidsPlaceholder(topic)
  {
    TextParses([HASH]);
    assert AtomsFor([HASH]) == [RunOutside(MULTI_LEVEL_CLASS)] by {
      assert [HASH][1..] == [];
    }
    CStringOfAscii(topic);
    HashTakesRest(topic);
  }
}
