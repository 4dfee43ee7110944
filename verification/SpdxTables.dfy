/** The shipped policy. */
module SpdxTables {
  import opened SpdxTokens
  import opened SpdxGrammar
  import opened SpdxPolicy
  import opened SpdxArrays

  const ALLOWED_IDS: set<string> := {
    "Apache-2.0", "MIT", "BSD-2-Clause", "BSD-3-Clause", "ISC", "EPL-1.0", "EPL-2.0", "UPL-1.0",
    "LGPL-2.1-only", "LGPL-2.1-or-later", "LGPL-3.0-only", "LGPL-3.0-or-later", "MPL-2.0",
    "CDDL-1.0", "CDDL-1.1", "CC0-1.0", "BlueOak-1.0.0", "PSF-2.0", "Python-2.0", "Unlicense", "MIT-0"
  }

  const ALLOWED_WITH: set<(string, string)> := {
    ("GPL-2.0-only", "Classpath-exception-2.0"),
    ("GPL-2.0-or-later", "Classpath-exception-2.0"),
    ("GPL-2.0", "Classpath-exception-2.0")
  }

  const NORMALISE: map<string, string> := map[
    "3-clause bsd license" := "BSD-3-Clause",
    "apache license 2.0" := "Apache-2.0",
    "apache license, version 2.0" := "Apache-2.0",
    "isc license" := "ISC",
    "mit license" := "MIT",
    "python software foundation license" := "PSF-2.0",
    "the unlicense" := "Unlicense",
    "public domain" := "CC0-1.0",
    "mozilla public license 2.0 (mpl 2.0)" := "MPL-2.0",
    "apache software license" := "Apache-2.0",
    "bsd license" := "BSD-3-Clause",
    "edl-1.0" := "BSD-3-Clause",
    "edl 1.0" := "BSD-3-Clause",
    "eclipse distribution license - v 1.0" := "BSD-3-Clause"
  ]

  function LowerPair(pair: (string, string)): (string, string) {
    (Lower(pair.0), Lower(pair.1))
  }

  const SHIPPED := Policy(
    set id | id in ALLOWED_IDS :: Lower(id),
    set pair | pair in ALLOWED_WITH :: LowerPair(pair),
    NORMALISE)

  /** Every spelling of the table names an allowed licence: the table never refuses. */
  lemma TableNeverRefuses(signal: string)
    requires Lower(Strip(signal)) in NORMALISE && Strip(signal) != ""
    ensures Evaluate(signal, SHIPPED) == Yes
  {
    hide Tokens, Strip, Lower;
    var mapped := NORMALISE[Lower(Strip(signal))];
    assert mapped in {"BSD-3-Clause", "Apache-2.0", "ISC", "MIT", "PSF-2.0", "Unlicense", "CC0-1.0", "MPL-2.0"};
    assert mapped in ALLOWED_IDS;
  }

  /** So under the shipped policy an array of parsing entries disagrees with its entries exactly
      as AllowedEntryIsLost says. */
  lemma TableRefusesNothing()
    ensures TableAccepts(SHIPPED)
  {
    forall k | k in NORMALISE ensures Lower(NORMALISE[k]) in SHIPPED.ids {
      var mapped := NORMALISE[k];
      assert mapped in {"BSD-3-Clause", "Apache-2.0", "ISC", "MIT", "PSF-2.0", "Unlicense", "CC0-1.0", "MPL-2.0"};
      assert mapped in ALLOWED_IDS;
    }
  }

  const ONE_WORD := "edl-1.0"

  lemma WordStrips(t: string)
    requires IsToken(t)
    ensures Strip(t) == t && t != ""
  {
    assert t[0] in t && t[|t| - 1] in t;
    assert TrimLeft(t) == t && TrimRight(t) == t;
  }

  lemma OneWordIsName()
    ensures IsToken(ONE_WORD) && IsName(ONE_WORD)
  {
    assert |Upper(ONE_WORD)| == 7;
  }

  lemma OneWordIsLower()
    ensures Lower(ONE_WORD) == ONE_WORD
  {
  }

  lemma OneWordIsNoLicence(id: string)
    requires id in ALLOWED_IDS
    ensures Lower(id) != ONE_WORD
  {
    assert |id| == 7 ==> LowerChar(id[1]) != 'd';
    assert |id| == 7 ==> Lower(id)[1] == LowerChar(id[1]);
  }

  /** No table key goes on after "edl-1.0". */
  lemma NoLongerKey(key: string)
    requires key in NORMALISE && |key| > 7
    ensures key[..7] != ONE_WORD
  {
    assert key[..7][0] == key[0] && key[..7][3] == key[3] && key[..7][1] == key[1];
  }

  /** A spelling of one word that is lost: "edl-1.0" is allowed alone, through the table, and an
      array of it and any name that is not allowed is refused, although both parse. */
  lemma OneWordIsLost(b: string)
    ensures IsToken(b) && IsName(b) && !Allowed(Licence(b), SHIPPED) ==>
              && Joinable([ONE_WORD, b], SHIPPED)
              && Evaluate(ONE_WORD, SHIPPED) == Yes && Evaluate(NpmSignal([ONE_WORD, b]), SHIPPED) != Yes
  {
    hide Strip, Lower, IsToken, IsName, Parses, NpmSignal, Allowed, ALLOWED_IDS, NORMALISE, Joinable, InTable, Evaluate;
    if IsToken(b) && IsName(b) && !Allowed(Licence(b), SHIPPED) {
      OneWordIsName();
      OneWordRefused();
      JoinIsNoKey(b);
      SpellingBesideName(ONE_WORD, b, SHIPPED);
    }
  }

  lemma OneWordRefused()
    ensures !Allowed(Licence(ONE_WORD), SHIPPED)
    ensures Spelling(ONE_WORD, SHIPPED)
  {
    hide Strip, Lower, ALLOWED_IDS;
    OneWordIsName();
    OneWordIsLower();
    WordStrips(ONE_WORD);
    assert Key(ONE_WORD) == ONE_WORD;
    forall id | id in ALLOWED_IDS ensures Lower(id) != ONE_WORD {
      OneWordIsNoLicence(id);
    }
    TableRefusesNothing();
  }

  lemma JoinIsNoKey(b: string)
    requires IsToken(b)
    ensures !InTable(ONE_WORD + OR_SEPARATOR + b, SHIPPED)
  {
    hide Strip, IsToken;
    OneWordIsName();
    StripOfJoin(ONE_WORD, b);
    var s := ONE_WORD + OR_SEPARATOR + b;
    OneWordIsLower();
    forall i | 0 <= i < 7 ensures Lower(s)[i] == ONE_WORD[i] {
      assert s[i] == ONE_WORD[i];
      assert Lower(ONE_WORD)[i] == LowerChar(ONE_WORD[i]);
    }
    assert Lower(s)[..7] == ONE_WORD;
    if Lower(s) in NORMALISE {
      NoLongerKey(Lower(s));
    }
  }

  const TWO_WORDS := "bsd license"

  lemma TwoWordsSpell()
    ensures Strip(TWO_WORDS) == TWO_WORDS && Lower(TWO_WORDS) == TWO_WORDS && TwoNames(Tokens(TWO_WORDS))
  {
    hide Tokens, Strip, Lower, IsToken, IsName, TwoNames;
    TwoWordsAreLower();
    BothAreNames();
    assert TWO_WORDS == "bsd" + " " + "license";
    TwoWordsAreTwoNames("bsd", "license");
    TightStrips(TWO_WORDS);
  }

  lemma TwoWordsAreLower()
    ensures Lower(TWO_WORDS) == TWO_WORDS
  {
  }

  lemma BothAreNames()
    ensures IsToken("bsd") && IsName("bsd") && IsToken("license") && IsName("license")
  {
    assert |Upper("license")| == 7;
    assert Upper("bsd")[0] == UpperChar('b') == 'B';
  }

  lemma NoKeyBehind(key: string)
    requires key in NORMALISE && |key| > 11
    ensures key[..11] != TWO_WORDS
  {
    assert key[..11][0] == key[0];
  }

  /** A spelling of two words that is lost: "bsd license" is allowed alone, and beside any word at
      all, one that names an allowed licence too, it makes the array unparseable. */
  lemma TwoWordsAreLost(other: string)
    requires IsToken(other)
    ensures Evaluate(TWO_WORDS, SHIPPED) == Yes
    ensures Evaluate(NpmSignal([TWO_WORDS, other]), SHIPPED) == Unparseable
  {
    hide Strip, Lower, Tokens, IsToken, TwoNames, Evaluate, NpmSignal, NonEmpty, NORMALISE, ALLOWED_IDS;
    TwoWordsSpell();
    TwoWordsAccepted();
    WordStrips(other);
    TwoEntries(TWO_WORDS, other);
    var entries := [TWO_WORDS, other];
    assert NonEmpty(entries)[0] == TWO_WORDS;
    TwoWordsJoin(other);
    SpellingsAreLostInArrays(entries, TWO_WORDS, SHIPPED);
  }

  lemma TwoWordsAccepted()
    ensures Spelling(TWO_WORDS, SHIPPED)
  {
    hide Strip, Lower, ALLOWED_IDS, Tokens, TwoNames;
    TwoWordsSpell();
    TableRefusesNothing();
    assert TWO_WORDS in NORMALISE;
  }

  lemma TwoWordsJoin(other: string)
    requires IsToken(other)
    ensures !InTable(TWO_WORDS + OR_SEPARATOR + other, SHIPPED)
  {
    var s := TWO_WORDS + OR_SEPARATOR + other;
    assert s[|s| - 1] == other[|other| - 1] && other[|other| - 1] in other;
    TightStrips(s);
    hide Strip, IsToken, Tokens, TwoNames, NORMALISE;
    TwoWordsSpell();
    forall i | 0 <= i < 11 ensures Lower(s)[i] == TWO_WORDS[i] {
      assert s[i] == TWO_WORDS[i];
      assert Lower(TWO_WORDS)[i] == LowerChar(TWO_WORDS[i]);
    }
    assert Lower(s)[..11] == TWO_WORDS;
    if Lower(s) in NORMALISE {
      NoKeyBehind(Lower(s));
    }
  }
}
