// The translation helper: the two message dictionaries, the language
// choice with its English default, the lookup with its fallbacks, and
// the `{name}` placeholder substitution.
module I18n {
  import opened Grid

  /** The victory messages, with their `{time}` placeholder. */
  const VICTORY_JA: string := "🎉 勝利！<br>生け贄の儀式から逃げ切った！<br>タイム: {time}秒"
  const VICTORY_EN: string := "🎉 Victory!<br>You escaped the ritual!<br>Time: {time}s"

  /** The Japanese messages. */
  const JA: seq<(string, string)> := [
    ("cta_play", "今すぐ遊ぶ"),
    ("cta_howto", "遊び方"),
    ("game_title", "🎃 ハロウィンかぼちゃ収集ゲーム 🦇"),
    ("game_desc", "矢印キーで移動して、街中のかぼちゃを全部集めよう！"),
    ("sound_enable", "🔊 音を有効化"),
    ("sound_on", "🔊 音オン"),
    ("sound_off", "🔇 音オフ"),
    ("ui_pumpkin", "🎃 かぼちゃ:"),
    ("ui_time", "⏱️ タイム:"),
    ("ui_score", "⭐ スコア:"),
    ("instr1", "↑↓←→ 移動 | S: 音のオン/オフ | A: 環境音"),
    ("instr2", "画面クリックで音を有効化"),
    ("minimap", "ミニマップ:"),
    ("intro_hint", "🧙‍♀️ 魔女っこを探して近づこう！"),
    ("collect_intro", "🧙‍♀️ 魔女っこ: かぼちゃを全部集めてきてね！"),
    ("return_hint", "🎃 全部集めた！魔女っこのところへ戻ろう！"),
    ("betrayal_html", "😈 魔女っこ: ふふふ...実はあなたは生け贄なのよ！<br>さあ、みんな、彼を捕まえて！"),
    ("escape_intro", "🏃 逃げろ！敵から60秒逃げ切れ！"),
    ("gameover_html", "💀 ゲームオーバー<br>敵に捕まってしまった...<br><small>F5でリトライ</small>"),
    ("victory_html", VICTORY_JA),
    ("press_r_restart", "Rキーでリスタート"),
    ("good_morning", "🌅 夜明けだ！"),
    ("ui_remaining_prefix", "残り "),
    ("ui_time_prefix", "タイム "),
    ("ui_sec_suffix", "秒")
  ]

  /** The English messages, in the same key order. */
  const EN: seq<(string, string)> := [
    ("cta_play", "Play Now"),
    ("cta_howto", "How to Play"),
    ("game_title", "🎃 Halloween Pumpkin Hunt 🦇"),
    ("game_desc", "Use arrow keys to move and collect all pumpkins in town!"),
    ("sound_enable", "🔊 Enable Sound"),
    ("sound_on", "🔊 Sound On"),
    ("sound_off", "🔇 Sound Off"),
    ("ui_pumpkin", "🎃 Pumpkins:"),
    ("ui_time", "⏱️ Time:"),
    ("ui_score", "⭐ Score:"),
    ("instr1", "↑↓←→ Move | S: Sound On/Off | A: Ambient"),
    ("instr2", "Click the screen to enable audio"),
    ("minimap", "Minimap:"),
    ("intro_hint", "🧙‍♀️ Find the witch girl and approach!"),
    ("collect_intro", "🧙‍♀️ Witch girl: Collect all the pumpkins!"),
    ("return_hint", "🎃 All collected! Return to the witch girl!"),
    ("betrayal_html", "😈 Witch girl: Hehe... you were the sacrifice!<br>Everyone, catch them!"),
    ("escape_intro", "🏃 Run! Survive the enemies for 60 seconds!"),
    ("gameover_html", "💀 Game Over<br>You were caught...<br><small>Press F5 to retry</small>"),
    ("victory_html", VICTORY_EN),
    ("press_r_restart", "Press R to restart"),
    ("good_morning", "🌅 Dawn breaks!"),
    ("ui_remaining_prefix", "Remaining "),
    ("ui_time_prefix", "Time "),
    ("ui_sec_suffix", "s")
  ]

  /** The dictionary of a language code, if there is one. */
  function DictOf(lang: string): Option<seq<(string, string)>>
  {
    if lang == "ja" then Some(JA) else if lang == "en" then Some(EN) else None
  }

  /** The key order of a dictionary. */
  function KeysOf(d: seq<(string, string)>): seq<string>
  {
    if |d| == 0 then [] else KeysOf(d[..|d| - 1]) + [d[|d| - 1].0]
  }

  /** A property read on the dictionary object. */
  function Lookup(d: seq<(string, string)>, key: string): (r: Option<string>)
    ensures r.Some? ==> exists i :: 0 <= i < |d| && d[i] == (key, r.value)
  {
    if |d| == 0 then None
    else if d[0].0 == key then Some(d[0].1)
    else
      var r := Lookup(d[1..], key);
      assert r.Some? ==> exists i :: 0 <= i < |d[1..]| && d[1..][i] == (key, r.value);
      assert r.Some? ==> exists i :: 0 <= i < |d| && d[i] == (key, r.value) by {
        if r.Some? {
          var i :| 0 <= i < |d[1..]| && d[1..][i] == (key, r.value);
          assert d[i + 1] == (key, r.value);
        }
      }
      r
  }

  /** The property of the first entry with that key. */
  lemma {:induction false} LookupAt(d: seq<(string, string)>, key: string, i: int)
    requires 0 <= i < |d| && d[i].0 == key
    requires forall j :: 0 <= j < i ==> d[j].0 != key
    ensures Lookup(d, key) == Some(d[i].1)
  {
    if i > 0 {
      LookupAt(d[1..], key, i - 1);
    }
  }

  /** A key no entry has is undefined. */
  lemma {:induction false} LookupMissing(d: seq<(string, string)>, key: string)
    requires forall j :: 0 <= j < |d| ==> d[j].0 != key
    ensures Lookup(d, key) == None
  {
    if |d| > 0 {
      LookupMissing(d[1..], key);
    }
  }

  /** Both languages define the same 25 keys in the same order, and no
      message is empty. */
  lemma SameKeys()
    ensures |JA| == |EN| == 25
    ensures forall i :: 0 <= i < 25 ==> JA[i].0 == EN[i].0
    ensures forall i :: 0 <= i < 25 ==> JA[i].1 != "" && EN[i].1 != ""
  {
  }

  /** `s` contains `p` at position i. */
  predicate OccursAt(s: string, p: string, i: int)
  {
    0 <= i && i + |p| <= |s| && s[i..i + |p|] == p
  }

  /** `s` contains `p` as a contiguous part. */
  ghost predicate Occurs(s: string, p: string)
  {
    exists i :: OccursAt(s, p, i)
  }

  /** The victory message is the 20th entry of both dictionaries: the
      texts below. */
  lemma VictoryEntry()
    ensures Lookup(JA, "victory_html") == Some(VICTORY_JA)
    ensures Lookup(EN, "victory_html") == Some(VICTORY_EN)
  {
    assert forall j :: 0 <= j < 19 ==> JA[j].0 != "victory_html" && EN[j].0 != "victory_html";
    LookupAt(JA, "victory_html", 19);
    LookupAt(EN, "victory_html", 19);
  }

  /** The victory message carries the `{time}` placeholder in both
      languages. */
  lemma VictoryHasTime()
    ensures Occurs(VICTORY_JA, "{time}") && Occurs(VICTORY_EN, "{time}")
  {
    assert OccursAt(VICTORY_JA, "{time}", 32);
    assert OccursAt(VICTORY_EN, "{time}", 47);
  }

  /** getLang: the stored choice, or 'en' when nothing (or an empty
      string) is stored. */
  function GetLang(stored: Option<string>): (lang: string)
    ensures stored.Some? && stored.value != "" ==> lang == stored.value
    ensures !(stored.Some? && stored.value != "") ==> lang == "en"
  {
    if stored.Some? && stored.value != "" then stored.value else "en"
  }

  /** The language t uses: `window.i18n.lang`, falling back to getLang. */
  function CurrentLang(field: string, stored: Option<string>): (lang: string)
    ensures lang != ""
    ensures field != "" ==> lang == field
    ensures field == "" ==> lang == GetLang(stored)
  {
    if field != "" then field else GetLang(stored)
  }

  /** `dict[lang][key]`, undefined when either is missing. */
  function Entry(lang: string, key: string): Option<string>
  {
    match DictOf(lang)
    case Some(d) => Lookup(d, key)
    case None => None
  }

  /** The message t starts from: the language's entry, else the Japanese
      one, else the key itself; an empty entry is falsy and falls through
      like a missing one. */
  function Message(lang: string, key: string): (s: string)
    ensures Entry(lang, key).Some? && Entry(lang, key).value != "" ==> s == Entry(lang, key).value
    ensures !(Entry(lang, key).Some? && Entry(lang, key).value != "") ==>
              s == (if Lookup(JA, key).Some? && Lookup(JA, key).value != "" then Lookup(JA, key).value else key)
  {
    var e := Entry(lang, key);
    if e.Some? && e.value != "" then e.value
    else
      var j := Lookup(JA, key);
      if j.Some? && j.value != "" then j.value else key
  }

  /** A key of the dictionaries translates to its own language's text in
      Japanese and English, and to the Japanese text in any other
      language. */
  lemma MessageFallbacks(key: string, lang: string)
    ensures Lookup(EN, key).Some? ==> Message("en", key) == Lookup(EN, key).value
    ensures Lookup(JA, key).Some? ==> Message("ja", key) == Lookup(JA, key).value
    ensures lang != "ja" && lang != "en" ==> Message(lang, key) == (if Lookup(JA, key).Some? then Lookup(JA, key).value else key)
  {
    SameKeys();
  }

  /** A key neither dictionary defines comes back unchanged, whatever the
      language. */
  lemma UnknownKey(key: string, lang: string)
    requires forall i :: 0 <= i < |JA| ==> JA[i].0 != key
    ensures Message(lang, key) == key
  {
    SameKeys();
    LookupMissing(JA, key);
    LookupMissing(EN, key);
  }

  /** `String.prototype.replace` with a global pattern of literal text:
      every non-overlapping occurrence, left to right, is replaced. */
  function ReplaceAll(s: string, pat: string, rep: string): string
    requires |pat| > 0
    decreases |s|
  {
    if |s| < |pat| then s
    else if s[..|pat|] == pat then rep + ReplaceAll(s[|pat|..], pat, rep)
    else [s[0]] + ReplaceAll(s[1..], pat, rep)
  }

  /** Text without the placeholder is returned unchanged. */
  lemma {:induction false} ReplaceAbsent(s: string, pat: string, rep: string)
    requires |pat| > 0 && !Occurs(s, pat)
    ensures ReplaceAll(s, pat, rep) == s
    decreases |s|
  {
    if |s| >= |pat| {
      assert !OccursAt(s, pat, 0);
      assert forall i :: OccursAt(s[1..], pat, i) ==> OccursAt(s, pat, i + 1);
      ReplaceAbsent(s[1..], pat, rep);
    }
  }

  /** No character of rep appears in pat. */
  predicate Disjoint(rep: string, pat: string)
  {
    forall k :: 0 <= k < |rep| ==> rep[k] !in pat
  }

  /** A prefix of the output made of pattern characters is a prefix of the
      input: a non-empty replacement disjoint from pat cannot start one. */
  lemma {:induction false} PatternPrefix(t: string, pat: string, rep: string, q: string)
    requires |pat| > 0 && |rep| > 0 && Disjoint(rep, pat)
    requires forall k :: 0 <= k < |q| ==> q[k] in pat
    requires |q| <= |ReplaceAll(t, pat, rep)| && ReplaceAll(t, pat, rep)[..|q|] == q
    ensures |q| <= |t| && t[..|q|] == q
    decreases |t|
  {
    if |q| > 0 && |t| >= |pat| {
      var r := ReplaceAll(t, pat, rep);
      StartsWithRep(t, pat, rep);
      assert q[0] in pat;
      if t[..|pat|] == pat {
        assert false;
      } else {
        var r1 := ReplaceAll(t[1..], pat, rep);
        assert r == [t[0]] + r1;
        assert r1[..|q| - 1] == q[1..];
        PatternPrefix(t[1..], pat, rep, q[1..]);
        assert t[..|q|] == [t[0]] + t[1..][..|q| - 1];
      }
    }
  }

  /** Where s starts with the pattern, its replacement starts with rep. */
  lemma StartsWithRep(t: string, pat: string, rep: string)
    requires 0 < |pat| <= |t| && |rep| > 0
    ensures t[..|pat|] == pat ==> ReplaceAll(t, pat, rep)[0] == rep[0]
  {
  }

  /** An occurrence in `rep + r1` that starts at a pattern character lies
      inside r1. */
  lemma OccursAfterRep(rep: string, r1: string, pat: string, i: int)
    requires |pat| > 0 && Disjoint(rep, pat) && OccursAt(rep + r1, pat, i)
    ensures i >= |rep| && OccursAt(r1, pat, i - |rep|)
  {
    var r := rep + r1;
    assert r[i] == pat[0];
    assert forall k :: 0 <= k < |rep| ==> r[k] == rep[k] && rep[k] !in pat;
    if i < |rep| {
      assert false;
    }
    assert r1[i - |rep|..i - |rep| + |pat|] == r[i..i + |pat|];
  }

  /** With a non-empty replacement that shares no character with the
      pattern, no occurrence of the pattern is left. */
  lemma {:induction false} ReplaceRemoves(s: string, pat: string, rep: string)
    requires |pat| > 0 && |rep| > 0 && Disjoint(rep, pat)
    ensures !Occurs(ReplaceAll(s, pat, rep), pat)
    decreases |s|
  {
    var r := ReplaceAll(s, pat, rep);
    if |s| < |pat| {
      assert |r| < |pat|;
    } else if s[..|pat|] == pat {
      var r1 := ReplaceAll(s[|pat|..], pat, rep);
      if Occurs(r, pat) {
        var i :| OccursAt(r, pat, i);
        OccursAfterRep(rep, r1, pat, i);
        ReplaceRemoves(s[|pat|..], pat, rep);
      }
    } else {
      var r1 := ReplaceAll(s[1..], pat, rep);
      if Occurs(r, pat) {
        var i :| OccursAt(r, pat, i);
        if i == 0 {
          FirstCharRestarts(s, pat, rep);
        } else {
          assert r == [s[0]] + r1;
          assert r1[i - 1..i - 1 + |pat|] == r[i..i + |pat|];
          assert OccursAt(r1, pat, i - 1);
          ReplaceRemoves(s[1..], pat, rep);
        }
      }
    }
  }

  /** When s does not start with pat, neither does its replacement. */
  lemma FirstCharRestarts(s: string, pat: string, rep: string)
    requires |pat| > 0 && |rep| > 0 && Disjoint(rep, pat)
    requires |s| >= |pat| && s[..|pat|] != pat
    ensures !OccursAt(ReplaceAll(s, pat, rep), pat, 0)
  {
    var r := ReplaceAll(s, pat, rep);
    var r1 := ReplaceAll(s[1..], pat, rep);
    assert r == [s[0]] + r1;
    if OccursAt(r, pat, 0) {
      ConsPrefix(s[0], r1, pat);
      TailChars(pat);
      PatternPrefix(s[1..], pat, rep, pat[1..]);
      ConsPrefixBack(s, pat);
    }
  }

  lemma ConsPrefix(c: char, r1: string, pat: string)
    requires |pat| > 0 && OccursAt([c] + r1, pat, 0)
    ensures c == pat[0] && |pat| - 1 <= |r1| && r1[..|pat| - 1] == pat[1..]
  {
    var r := [c] + r1;
    assert r[0] == c;
    forall k | 0 <= k < |pat| - 1
      ensures r1[k] == pat[1..][k]
    {
      assert r[k + 1] == r1[k];
    }
  }

  lemma TailChars(pat: string)
    requires |pat| > 0
    ensures forall k :: 0 <= k < |pat[1..]| ==> pat[1..][k] in pat
  {
    forall k | 0 <= k < |pat[1..]|
      ensures pat[1..][k] in pat
    {
      assert pat[1..][k] == pat[k + 1];
    }
  }

  lemma ConsPrefixBack(s: string, pat: string)
    requires 0 < |pat| <= |s| && s[0] == pat[0] && s[1..][..|pat| - 1] == pat[1..]
    ensures s[..|pat|] == pat
  {
    forall k | 0 <= k < |pat|
      ensures s[k] == pat[k]
    {
      if k > 0 {
        assert s[1..][k - 1] == s[k];
      }
    }
  }

  /** The `{k}` placeholder of a parameter name. */
  function Placeholder(k: string): string
  {
    "{" + k + "}"
  }

  /** The substitution of the parameters, in the order of their keys. */
  function Substituted(s: string, params: seq<(string, string)>): string
  {
    if |params| == 0 then s
    else ReplaceAll(Substituted(s, params[..|params| - 1]), Placeholder(params[|params| - 1].0), params[|params| - 1].1)
  }

  /** t(key, params): the message in the current language, with every
      `{k}` replaced by params[k] when params are given; without params
      the message is returned as it is. */
  method T(key: string, params: Option<seq<(string, string)>>, field: string, stored: Option<string>) returns (s: string)
    ensures params.None? ==> s == Message(CurrentLang(field, stored), key)
    ensures params.Some? ==> s == Substituted(Message(CurrentLang(field, stored), key), params.value)
  {
    var lang := CurrentLang(field, stored);
    s := Message(lang, key);
    if params.Some? {
      ghost var base := s;
      var ps := params.value;
      var i := 0;
      while i < |ps|
        invariant 0 <= i <= |ps|
        invariant s == Substituted(base, ps[..i])
      {
        assert ps[..i + 1][..i] == ps[..i];
        s := ReplaceAll(s, Placeholder(ps[i].0), ps[i].1);
        i := i + 1;
      }
      assert ps[..i] == ps;
    }
  }

  /** A message with a time made only of digits and a point has its
      `{time}` placeholder filled: none is left. */
  lemma TimeFilled(msg: string, time: string)
    requires |time| > 0 && forall k :: 0 <= k < |time| ==> time[k] in "0123456789."
    ensures !Occurs(Substituted(msg, [("time", time)]), "{time}")
  {
    var ps := [("time", time)];
    assert ps[..0] == [];
    assert Placeholder("time") == "{time}";
    assert Substituted(msg, ps) == ReplaceAll(msg, "{time}", time);
    forall k | 0 <= k < |time|
      ensures time[k] !in "{time}"
    {
      assert time[k] in "0123456789.";
    }
    ReplaceRemoves(msg, "{time}", time);
  }
}
