/**
 * The in-game string table of language.js: English and Chinese entries and the
 * lookup `t(key)` that falls back to the key itself. The stored language
 * preference (browser local storage) is a parameter.
 */
module Language {
  import opened Common

  const English: map<string, string> := map[
    "title" := "Bubble Pop Kung Fu",
    "start" := "Start Game",
    "back" := "Back to Menu",
    "gameOver" := "Game Over!",
    "finalScore" := "Final Score",
    "selectDifficulty" := "Select Difficulty:",
    "easy" := "Easy",
    "medium" := "Medium",
    "hard" := "Hard",
    "retry" := "Retry",
    "error" := "Game start failed, please try again",
    "calibrate" := "Please maintain a standing position",
    "score" := "Score",
    "lives" := "Lives",
    "balloons" := "Balloons",
    "remaining" := "Remaining Repetitions"]

  const Chinese: map<string, string> := map[
    "title" := "泡泡功夫",
    "start" := "开始游戏",
    "back" := "返回菜单",
    "gameOver" := "游戏结束！",
    "finalScore" := "最终得分",
    "selectDifficulty" := "选择难度：",
    "easy" := "简单",
    "medium" := "中等",
    "hard" := "困难",
    "retry" := "重试",
    "error" := "游戏启动失败，请重试",
    "calibrate" := "请保持站立姿势",
    "score" := "分数",
    "lives" := "生命值",
    "balloons" := "气球个数",
    "remaining" := "剩余次数"]

  /** `FruitCuttingMaster`: the two language tables. */
  const Tables: map<string, map<string, string>> := map["en" := English, "zh" := Chinese]

  /** `localStorage.getItem('language') || 'en'`: no or an empty stored value means English. */
  function CurrentLang(stored: Option<string>): (lang: string)
    ensures stored.None? || stored.value == "" ==> lang == "en"
    ensures lang != ""
    ensures stored.Some? && stored.value != "" ==> lang == stored.value
  {
    if stored.Some? && stored.value != "" then stored.value else "en"
  }

  /**
   * `t(key)`: `FruitCuttingMaster[currentLang]?.[key] || key`. An unknown
   * language, a missing key and an empty entry all give back the key.
   */
  function T(currentLang: string, key: string): (text: string)
    ensures currentLang !in Tables ==> text == key
    ensures currentLang in Tables && key !in Tables[currentLang] ==> text == key
    ensures currentLang in Tables && key in Tables[currentLang] && Tables[currentLang][key] != "" ==>
      text == Tables[currentLang][key]
  {
    if currentLang in Tables && key in Tables[currentLang] && Tables[currentLang][key] != "" then
      Tables[currentLang][key]
    else
      key
  }

  /** The two tables list the same keys. */
  lemma SameKeys()
    ensures English.Keys == Chinese.Keys
  {
  }

  /** The sixteen keys of the string table. */
  const Keys: set<string> := {
      "title", "start", "back", "gameOver",
      "finalScore", "selectDifficulty", "easy", "medium",
      "hard", "retry", "error", "calibrate",
      "score", "lives", "balloons", "remaining"}

  /** The English table is keyed by exactly those strings. */
  lemma KeysAreTheKeys()
    ensures English.Keys == Keys
  {
  }

  /** The sixteen key strings are distinct. */
  lemma SixteenKeys()
    ensures |Keys| == 16
  {
  }

  /** Each table has sixteen entries. */
  lemma KeyCount()
    ensures |English.Keys| == 16 && |Chinese.Keys| == 16
  {
    KeysAreTheKeys();
    SameKeys();
    SixteenKeys();
  }

  /** No entry is empty. */
  lemma NoEmptyEntry()
    ensures forall key :: key in English ==> English[key] != ""
    ensures forall key :: key in Chinese ==> Chinese[key] != ""
  {
  }

  /** So in either language a known key is translated and never falls back. */
  lemma KnownKeyTranslated(lang: string, key: string)
    requires lang in Tables && key in English
    ensures T(lang, key) == Tables[lang][key] && T(lang, key) != key
  {
    SameKeys();
    NoEmptyEntry();
  }
}
