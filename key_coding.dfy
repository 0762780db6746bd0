/**
 * The encoder's `convertToSnakeCase` key strategy, for property names made of lower-case
 * words each starting with one capital letter (camel case without acronyms).
 */
module KeyCoding {

  predicate IsUpper(c: char) {
    'A' <= c <= 'Z'
  }

  function ToLower(c: char): (l: char)
    ensures !IsUpper(l)
  {
    if IsUpper(c) then (c as int - 'A' as int + 'a' as int) as char else c
  }

  predicate NoUpper(s: string) {
    forall i :: 0 <= i < |s| ==> !IsUpper(s[i])
  }

  function LowerAll(s: string): (l: string)
    ensures |l| == |s|
  {
    if s == [] then [] else [ToLower(s[0])] + LowerAll(s[1..])
  }

  /** Everything but the underscores. */
  function DropUnderscores(s: string): string {
    if s == [] then [] else (if s[0] == '_' then [] else [s[0]]) + DropUnderscores(s[1..])
  }

  /** After the first character, a capital letter starts a new word, written `_` and its lower case. */
  function SplitWords(rest: string): (s: string)
  {
    if rest == [] then []
    else (if IsUpper(rest[0]) then ['_', ToLower(rest[0])] else [rest[0]]) + SplitWords(rest[1..])
  }

  /** The snake-case form of a property name; the first character is lowered but never split off. */
  function SnakeCase(name: string): (key: string)
    ensures NoUpper(key)
  {
    if name == [] then []
    else
      SplitWordsNoUpper(name[1..]);
      [ToLower(name[0])] + SplitWords(name[1..])
  }

  lemma {:induction false} SplitWordsLetters(rest: string)
    requires forall i :: 0 <= i < |rest| ==> rest[i] != '_'
    ensures DropUnderscores(SplitWords(rest)) == LowerAll(rest)
  {
    if rest != [] {
      var head := if IsUpper(rest[0]) then ['_', ToLower(rest[0])] else [rest[0]];
      SplitWordsLetters(rest[1..]);
      DropUnderscoresAppend(head, SplitWords(rest[1..]));
      if IsUpper(rest[0]) {
        assert DropUnderscores(head) == [ToLower(rest[0])] by {
          assert head[1..] == [ToLower(rest[0])];
          assert ToLower(rest[0]) != '_';
        }
      } else {
        assert ToLower(rest[0]) == rest[0];
        assert DropUnderscores(head) == [rest[0]] by {
          assert head[1..] == [];
        }
      }
    }
  }

  lemma {:induction false} DropUnderscoresAppend(a: string, b: string)
    ensures DropUnderscores(a + b) == DropUnderscores(a) + DropUnderscores(b)
  {
    if a != [] {
      assert (a + b)[1..] == a[1..] + b;
      DropUnderscoresAppend(a[1..], b);
    } else {
      assert a + b == b;
    }
  }

  /**
   * The conversion only inserts underscores and lowers letters: for a name without
   * underscores, taking the underscores out again gives the name in lower case.
   */
  lemma SnakeCaseLetters(name: string)
    requires forall i :: 0 <= i < |name| ==> name[i] != '_'
    ensures DropUnderscores(SnakeCase(name)) == LowerAll(name)
  {
    if name != [] {
      SplitWordsLetters(name[1..]);
      DropUnderscoresAppend([ToLower(name[0])], SplitWords(name[1..]));
      assert ToLower(name[0]) != '_';
      assert DropUnderscores([ToLower(name[0])]) == [ToLower(name[0])] by {
        assert [ToLower(name[0])][1..] == [];
      }
    }
  }

  lemma {:induction false} SplitWordsAppend(a: string, b: string)
    ensures SplitWords(a + b) == SplitWords(a) + SplitWords(b)
  {
    if a != [] {
      assert (a + b)[1..] == a[1..] + b;
      SplitWordsAppend(a[1..], b);
    } else {
      assert a + b == b;
    }
  }

  lemma {:induction false} SplitWordsNoUpper(rest: string)
    ensures NoUpper(SplitWords(rest))
  {
    if rest != [] {
      SplitWordsNoUpper(rest[1..]);
    }
  }

  lemma {:induction false} SplitWordsLower(w: string)
    requires NoUpper(w)
    ensures SplitWords(w) == w
  {
    if w != [] {
      SplitWordsLower(w[1..]);
    }
  }

  /** A capitalised word becomes an underscore and the word in lower case. */
  lemma SplitWordsCapitalised(c: char, w: string)
    requires IsUpper(c) && NoUpper(w)
    ensures SplitWords([c] + w) == ['_', ToLower(c)] + w
  {
    assert ([c] + w)[1..] == w;
    SplitWordsLower(w);
  }

  /** The snake-case key of a two-word camel-case name. */
  lemma TwoWordKey(first: string, c: char, second: string)
    requires first != [] && NoUpper(first) && IsUpper(c) && NoUpper(second)
    ensures SnakeCase(first + [c] + second) == first + ['_', ToLower(c)] + second
  {
    var name := first + [c] + second;
    var tail := first[1..];
    assert name[0] == first[0] && name[1..] == tail + ([c] + second);
    assert NoUpper(tail) by {
      assert forall i :: 0 <= i < |tail| ==> tail[i] == first[i + 1];
    }
    SplitWordsAppend(tail, [c] + second);
    SplitWordsLower(tail);
    SplitWordsCapitalised(c, second);
    assert SplitWords(name[1..]) == tail + (['_', ToLower(c)] + second);
    assert ToLower(first[0]) == first[0];
    assert SnakeCase(name) == [first[0]] + (tail + (['_', ToLower(c)] + second));
    assert [first[0]] + tail == first;
  }

  lemma WeatherConditionSnakeCase()
    ensures SnakeCase("weatherCondition") == "weather_condition"
  {
    TwoWordKey("weather", 'C', "ondition");
    assert "weather" + ['C'] + "ondition" == "weatherCondition";
    assert "weather" + ['_', 'c'] + "ondition" == "weather_condition";
  }

  lemma MaxTemperatureSnakeCase()
    ensures SnakeCase("maxTemperature") == "max_temperature"
  {
    TwoWordKey("max", 'T', "emperature");
    assert "max" + ['T'] + "emperature" == "maxTemperature";
    assert "max" + ['_', 't'] + "emperature" == "max_temperature";
  }

  lemma MinTemperatureSnakeCase()
    ensures SnakeCase("minTemperature") == "min_temperature"
  {
    TwoWordKey("min", 'T', "emperature");
    assert "min" + ['T'] + "emperature" == "minTemperature";
    assert "min" + ['_', 't'] + "emperature" == "min_temperature";
  }

  lemma DateSnakeCase()
    ensures SnakeCase("date") == "date"
  {
  }
}
