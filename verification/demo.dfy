/** `demo_translate`: the offline line for a thought in a style, taken from a
    fixed table of templates, with a default template for any other style. */
module DemoLines {
  import opened Base
  import opened PyStr

  /** Fixed text before and after the interpolated thought; a `Capitalized`
      template passes the thought through `str.capitalize()` first. */
  datatype Template =
    | Plain(before: string, after: string)
    | Capitalized(before: string, after: string)

  /** The phrase that stands in for an empty thought. */
  const Placeholder: string := "this moment"

  /** The template of each style the table knows. */
  const Samples: map<string, Template> :=
    map[
      "Poetic" := Plain("Like tide over stone, ", " learns to soften."),
      "Stoic" := Capitalized("", " is opinion; choose the next right action."),
      "Shakespearean" := Plain("", " weighs the hour; still, I answer dawn."),
      "Deep" := Plain("The root of ", " is asking to be seen."),
      "Comic" := Plain("", "? You’re not broken—you’re buffering. Try a heart refresh."),
      "Zen" := Plain("", " is a cloud; the sky remains."),
      "Mystical" := Plain("Within ", ", a hidden lantern waits for your name."),
      "Mythic Mirror" := Plain("You stand at the gate of ", "; the key is your true name."),
      "Haiku" := Plain("", " in one breath— old knots loosening— spring finds a door"),
      "Lyrical" := Plain("I hum through ", " till the melody turns me light."),
      "Oracular" := Plain("From ", ", a sign: choose the narrow way and become wide."),
      "Surrealist" := Plain("", " grew feathers; the clock drank the sea."),
      "Romantic" := Plain("In ", ", the heart still hears a distant, faithful lighthouse."),
      "Minimalist" := Plain("", ". Then—space."),
      "Elegiac" := Plain("I lay down the old name of ", " and listen for the quiet."),
      "Epic/Grand" := Plain("Across the ridge of ", ", your small step moves the mountain."),
      "Satirical" := Plain("", "? Install fewer chaos-plugins."),
      "Ecstatic (Rumi-style)" := Plain("Beloved, even ", " is a doorway wearing your face."),
      "Journal-style" := Plain("Today felt like ", ". One truthful line eased it."),
      "Rap/Spoken Word" := Plain("", " in my chest—ride the beat, let the walls confess."),
      "Childlike" := Plain("", " feels big. I am bigger."),
      "Cinematic" := Plain("The room tightens with ", "; a window brightens—you exhale.")
    ]

  /** The template of every style not in the table. */
  const Default: Template := Plain("", " turns toward light.")

  function TemplateFor(style: string): Template {
    if style in Samples then Samples[style] else Default
  }

  /** Every template ends in fixed text, so no line is ever empty. */
  lemma TemplateAfterNonEmpty(style: string)
    ensures TemplateFor(style).after != []
  {
  }

  /** `(thought or "this moment").strip()`: the placeholder replaces only the
      empty thought; a thought of whitespace alone becomes empty. */
  function Subject(thought: string): (t: string)
    ensures Stripped(t)
    ensures thought == [] ==> t == Placeholder
    ensures thought != [] && AllSpace(thought) ==> t == []
    ensures !AllSpace(thought) ==> t == Strip(thought) && t != []
  {
    if thought == [] then
      StripStripped(Placeholder);
      Strip(Placeholder)
    else Strip(thought)
  }

  /** The thought as it appears in the line of template `tpl`. */
  function Shown(tpl: Template, t: string): (shown: string)
    ensures |shown| == |t| && Lower(shown) == Lower(t)
  {
    match tpl
    case Plain(_, _) => t
    case Capitalized(_, _) => Capitalize(t)
  }

  /** `demo_translate(thought, style)`: the line is never empty, and it is the
      style's fixed text around the trimmed thought. */
  function DemoTranslate(thought: string, style: string): (line: string)
    ensures line != []
    ensures var tpl := TemplateFor(style); var t := Subject(thought);
      && |line| == |tpl.before| + |t| + |tpl.after|
      && line[..|tpl.before|] == tpl.before
      && line[|line| - |tpl.after|..] == tpl.after
  {
    var tpl := TemplateFor(style);
    TemplateAfterNonEmpty(style);
    var line := tpl.before + Shown(tpl, Subject(thought)) + tpl.after;
    assert line[..|tpl.before|] == tpl.before;
    assert line[|line| - |tpl.after|..] == tpl.after;
    line
  }

  /** Reads the interpolated thought back out of a line of the given style, or
      `None` when the line does not have that style's fixed text. */
  function Recover(style: string, line: string): Option<string> {
    var tpl := TemplateFor(style);
    var b, a := |tpl.before|, |tpl.after|;
    if b + a <= |line| && line[..b] == tpl.before && line[|line| - a..] == tpl.after
    then Some(line[b..|line| - a])
    else None
  }

  /** The line of a style carries the trimmed thought: reading it back gives
      the thought exactly, capitalized for a `Capitalized` template. */
  lemma DemoRoundTrip(thought: string, style: string)
    ensures Recover(style, DemoTranslate(thought, style)) == Some(Shown(TemplateFor(style), Subject(thought)))
  {
    var tpl := TemplateFor(style);
    var shown := Shown(tpl, Subject(thought));
    var line := DemoTranslate(thought, style);
    assert line == tpl.before + shown + tpl.after;
    assert line[|tpl.before|..|line| - |tpl.after|] == shown;
  }

  /** Whatever the style, the thought read back from its line matches the
      trimmed thought up to letter case. */
  lemma DemoKeepsThought(thought: string, style: string)
    ensures Recover(style, DemoTranslate(thought, style)).Some?
    ensures Lower(Recover(style, DemoTranslate(thought, style)).value) == Lower(Subject(thought))
  {
    DemoRoundTrip(thought, style);
  }

  /** A style outside the table gets the default line. */
  lemma DemoDefault(thought: string, style: string)
    requires style !in Samples
    ensures DemoTranslate(thought, style) == Subject(thought) + " turns toward light."
  {
    assert TemplateFor(style) == Default;
    var t := Subject(thought);
    assert Shown(Default, t) == t;
    assert [] + t == t;
  }

  /** The Stoic line for "I feel stuck.". */
  lemma DemoStoicExample()
    ensures DemoTranslate("I feel stuck.", "Stoic") == "I feel stuck." + " is opinion; choose the next right action."
  {
    var t := "I feel stuck.";
    assert TemplateFor("Stoic") == Capitalized("", " is opinion; choose the next right action.");
    StripStripped(t);
    assert Subject(t) == t;
    LowerUnchanged(t[1..]);
    assert Capitalize(t) == [t[0]] + t[1..] == t;
    var after := " is opinion; choose the next right action.";
    assert DemoTranslate(t, "Stoic") == "" + t + after;
    assert "" + t + after == t + after;
  }
}
