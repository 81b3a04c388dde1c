/** Naming of the generated invoices: the cleaned task name, the course code,
    the per-group token and header texts, and the output file name. */
module FileNames {
  import opened Text

  /** The characters `limpiar_nombre_archivo` deletes. */
  const Forbidden: set<char> := {'<', '>', ':', '"', '/', '\\', '|', '?', '*'}

  /** `limpiar_nombre_archivo`: delete the forbidden characters, strip the
      surrounding whitespace, then turn every space into an underscore. */
  function Sanitize(name: string): (r: string)
    ensures Avoids(r, Forbidden) && ' ' !in r
    ensures Stripped(r)
  {
    var kept := Delete(name, Forbidden);
    var trimmed := Strip(kept);
    SanitizeSteps(name, kept, trimmed);
    ReplaceChar(trimmed, ' ', '_')
  }

  lemma {:induction false} SanitizeSteps(name: string, kept: string, trimmed: string)
    requires kept == Delete(name, Forbidden) && trimmed == Strip(kept)
    ensures Avoids(ReplaceChar(trimmed, ' ', '_'), Forbidden)
    ensures ' ' !in ReplaceChar(trimmed, ' ', '_')
    ensures Stripped(ReplaceChar(trimmed, ' ', '_'))
  {
    DeleteSpec(name, Forbidden);
    AvoidsSlice(kept, Forbidden, Indent(kept), Indent(kept) + |trimmed|);
    assert '_' !in Forbidden && !IsSpace('_');
    ReplaceKeepsAvoids(trimmed, Forbidden, ' ', '_');
    ReplaceRemoves(trimmed, ' ', '_');
    ReplaceKeepsStripped(trimmed, ' ', '_');
  }

  /** Cleaning an already clean name changes nothing. */
  lemma SanitizeIdempotent(name: string)
    ensures Sanitize(Sanitize(name)) == Sanitize(name)
  {
    SanitizeFixesClean(Sanitize(name));
  }

  /** A name without forbidden characters, without spaces and without
      surrounding whitespace is already clean. */
  lemma SanitizeFixesClean(s: string)
    requires Avoids(s, Forbidden) && ' ' !in s && Stripped(s)
    ensures Sanitize(s) == s
  {
    DeleteSpec(s, Forbidden);
    StripFixesStripped(s);
    ReplaceFixes(s, ' ', '_');
  }

  /** How a course is offered: `"{code} - {name}"`. */
  function CourseLabel(code: string, name: string): string {
    code + " - " + name
  }

  /** `curso_seleccionado.split(" - ")[0]`. */
  function CourseCode(selected: string): (r: string)
    ensures |r| <= |selected| && r == selected[..|r|]
  {
    Before(selected, " - ")
  }

  /** The code is the text up to the first `" - "`: it holds none, and one
      follows it unless the label has none at all. */
  lemma CourseCodeSpec(selected: string)
    ensures CourseCode(selected) == selected[..|CourseCode(selected)|]
    ensures forall i :: 0 <= i < |CourseCode(selected)| ==> !OccursAt(selected, " - ", i)
    ensures CourseCode(selected) == selected || OccursAt(selected, " - ", |CourseCode(selected)|)
  {
    BeforeSpec(selected, " - ");
  }

  /** The code is read back from the selected label whenever the code itself
      holds no `" - "` (its last character cannot start one either). */
  lemma CourseCodeOfLabel(code: string, name: string)
    requires forall i :: 0 <= i < |code| ==> !OccursAt(code + " - " + name, " - ", i)
    ensures CourseCode(CourseLabel(code, name)) == code
  {
    var selected := CourseLabel(code, name);
    var r := CourseCode(selected);
    CourseCodeSpec(selected);
    assert selected[..|code|] == code;
    assert OccursAt(selected, " - ", |code|);
    assert |r| <= |code|;
    assert |r| >= |code|;
  }

  /** The evaluation mode the coordinator picked ("Individual" / "Por Equipos"). */
  datatype Mode = Individual | Teams

  /** `est.split(" ")[0]`: the first space-separated word of a name. */
  function FirstWord(name: string): (r: string)
    ensures ' ' !in r
    ensures |r| <= |name| && r == name[..|r|]
    ensures r == name || name[|r|] == ' '
  {
    var r := Before(name, " ");
    BeforeSpec(name, " ");
    assert forall i :: 0 <= i < |r| ==> r[i] != ' ' by {
      forall i | 0 <= i < |r| ensures r[i] != ' ' {
        assert !OccursAt(name, " ", i);
        assert name[i..i + 1] == [name[i]];
      }
    }
    assert r != name ==> name[|r|] == ' ' by {
      if r != name { assert name[|r|..|r| + 1] == " "; }
    }
    r
  }

  /** The words the team token is made of, one per member, in order. */
  function FirstWords(group: seq<string>): (r: seq<string>)
    ensures |r| == |group|
    ensures forall i :: 0 <= i < |r| ==> r[i] == FirstWord(group[i])
  {
    seq(|group|, i requires 0 <= i < |group| => FirstWord(group[i]))
  }

  /** `nombre_estudiantes_archivo`: `"Equipo_"` and the members' first words
      joined by `_` in team mode; the first member's name with spaces turned
      into `_` otherwise. The branch tests the mode, not the group size. */
  function GroupToken(mode: Mode, group: seq<string>): (r: string)
    requires |group| > 0
    ensures mode == Teams ==> |r| >= 7 && r[..7] == "Equipo_"
    ensures mode == Individual ==> |r| == |group[0]| && ' ' !in r
  {
    match mode
    case Teams => "Equipo_" + Join(FirstWords(group), "_")
    case Individual => ReplaceChar(group[0], ' ', '_')
  }

  /** In team mode the token is `Equipo_` followed by the members' first
      words; splitting the rest on `_` recovers those words when none holds `_`. */
  lemma TeamTokenWords(group: seq<string>)
    requires |group| > 0
    requires forall i :: 0 <= i < |group| ==> '_' !in FirstWord(group[i])
    ensures GroupToken(Teams, group)[..7] == "Equipo_"
    ensures SplitOn(GroupToken(Teams, group)[7..], '_') == FirstWords(group)
  {
    var t := GroupToken(Teams, group);
    assert t[7..] == Join(FirstWords(group), "_");
    SplitJoin(FirstWords(group), '_');
  }

  /** In individual mode the token is the student's name with every space
      turned into `_`, and no other change: turning `_` back into spaces
      gives the name again when the name held no `_`. */
  lemma IndividualToken(group: seq<string>)
    requires |group| > 0
    ensures ' ' !in GroupToken(Individual, group)
    ensures '_' !in group[0] ==> ReplaceChar(GroupToken(Individual, group), '_', ' ') == group[0]
  {
    var t := GroupToken(Individual, group);
    assert forall i :: 0 <= i < |t| ==> t[i] != ' ';
    if '_' !in group[0] {
      var back := ReplaceChar(t, '_', ' ');
      assert forall i :: 0 <= i < |back| ==> back[i] == group[0][i];
    }
  }

  /** Cell A5: the heading for the student name(s). */
  function StudentHeading(mode: Mode): string {
    match mode
    case Teams => "Estudiantes:"
    case Individual => "Estudiante:"
  }

  /** Cell B5: all members separated by `", "` in team mode, the first member otherwise. */
  function StudentNames(mode: Mode, group: seq<string>): (r: string)
    requires |group| > 0
    ensures mode == Individual ==> r == group[0]
    ensures mode == Teams ==>
      forall i :: 0 <= i < |group| ==> OccursAt(r, group[i], JoinOffset(group, ", ", i))
    ensures mode == Teams ==>
      forall i :: 0 <= i < |group| - 1 ==> OccursAt(r, ", ", JoinOffset(group, ", ", i) + |group[i]|)
    ensures mode == Teams ==> JoinOffset(group, ", ", |group| - 1) + |group[|group| - 1]| == |r|
  {
    match mode
    case Teams => JoinLayout(group, ", "); Join(group, ", ")
    case Individual => group[0]
  }

  /** The output file name, `Factura_{task}_{course code}_{token}.xlsx`. Only
      the task name is cleaned; the course code and the token are used as they are. */
  function FileName(task: string, courseLabel: string, mode: Mode, group: seq<string>): (r: string)
    requires |group| > 0
    ensures |r| >= 15 && r[..8] == "Factura_" && r[|r| - 5..] == ".xlsx"
  {
    "Factura_" + Sanitize(task) + "_" + CourseCode(courseLabel) + "_" + GroupToken(mode, group) + ".xlsx"
  }

  /** A name is free of forbidden characters. */
  predicate Clean(s: string) {
    Avoids(s, Forbidden)
  }

  /** The file name is free of forbidden characters when the course code and
      the group's token are; the task name is cleaned in any case. */
  lemma {:induction false} FileNameClean(task: string, courseLabel: string, mode: Mode, group: seq<string>)
    requires |group| > 0
    requires Clean(CourseCode(courseLabel)) && Clean(GroupToken(mode, group))
    ensures Clean(FileName(task, courseLabel, mode, group))
  {
    var code, token := CourseCode(courseLabel), GroupToken(mode, group);
    var task' := Sanitize(task);
    assert FileName(task, courseLabel, mode, group) == "Factura_" + task' + "_" + code + "_" + token + ".xlsx";
    FixedPartsClean();
    ConcatClean("Factura_", task');
    ConcatClean("Factura_" + task', "_");
    ConcatClean("Factura_" + task' + "_", code);
    ConcatClean("Factura_" + task' + "_" + code, "_");
    ConcatClean("Factura_" + task' + "_" + code + "_", token);
    ConcatClean("Factura_" + task' + "_" + code + "_" + token, ".xlsx");
  }

  /** The fixed parts of the file name hold no forbidden character. */
  lemma FixedPartsClean()
    ensures Clean("Factura_") && Clean("_") && Clean(".xlsx")
  {
    var f, x := "Factura_", ".xlsx";
    assert f == ['F', 'a', 'c', 't', 'u', 'r', 'a', '_'];
    assert x == ['.', 'x', 'l', 's', 'x'];
  }

  lemma ConcatClean(a: string, b: string)
    requires Clean(a) && Clean(b)
    ensures Clean(a + b)
  {
    forall i | 0 <= i < |a + b| ensures (a + b)[i] !in Forbidden {
      if i >= |a| { assert (a + b)[i] == b[i - |a|]; }
    }
  }

  /** Only the task name is cleaned: a forbidden character in a student's
      name reaches the individual-mode file name. */
  lemma UncleanedStudentName(task: string, courseLabel: string, group: seq<string>, k: nat)
    requires |group| > 0 && k < |group[0]| && group[0][k] in Forbidden
    ensures !Clean(FileName(task, courseLabel, Individual, group))
  {
    var token := GroupToken(Individual, group);
    var prefix := "Factura_" + Sanitize(task) + "_" + CourseCode(courseLabel) + "_";
    assert FileName(task, courseLabel, Individual, group) == prefix + token + ".xlsx";
    assert token[k] == group[0][k];
    NotCleanInside(prefix, token, ".xlsx", k);
  }

  /** A forbidden character anywhere makes a concatenation unclean. */
  lemma NotCleanInside(a: string, b: string, c: string, k: nat)
    requires k < |b| && b[k] in Forbidden
    ensures !Clean(a + b + c)
  {
    assert (a + b + c)[|a| + k] == b[k];
  }
}
