/** Standard-specific document templates (services/template_manager.py):
    a map of templates by name and placeholder substitution. */
module Templates {
  import opened Wrappers
  import Text

  datatype Template = Template(name: string, filename: string, content: string, path: string)

  datatype TemplateError = TemplateNotFound(name: string)

  /** The placeholder `"[" + key + "]"` a custom-data key stands for. */
  function Placeholder(key: string): (p: string)
    ensures |p| == |key| + 2 && p[0] == '[' && p[|p| - 1] == ']'
  {
    "[" + key + "]"
  }

  /** The substitutions applied one after another, in the order of the
      custom data, each replacing every occurrence in the current content. */
  function ApplyAll(content: string, customData: seq<(string, string)>): (r: string)
    ensures customData == [] ==> r == content
  {
    if customData == [] then content
    else
      var (key, value) := customData[|customData| - 1];
      Text.ReplaceAll(ApplyAll(content, customData[..|customData| - 1]), Placeholder(key), value)
  }

  /** Text without a `[` has no placeholder, so no substitution changes it. */
  lemma {:induction false} ApplyAllWithoutBrackets(content: string, customData: seq<(string, string)>)
    requires forall i :: 0 <= i < |content| ==> content[i] != '['
    ensures ApplyAll(content, customData) == content
  {
    if customData != [] {
      var (key, value) := customData[|customData| - 1];
      ApplyAllWithoutBrackets(content, customData[..|customData| - 1]);
      assert !Text.Contains(content, Placeholder(key)) by {
        forall k | 0 <= k <= |content| - |Placeholder(key)|
          ensures !Text.OccursAt(content, Placeholder(key), k)
        {
          assert content[k..k + |Placeholder(key)|][0] == content[k];
        }
      }
      Text.ReplaceAllAbsent(content, Placeholder(key), value);
    }
  }

  /** Custom data filling each placeholder with itself changes nothing. */
  lemma {:induction false} ApplyAllSelf(content: string, customData: seq<(string, string)>)
    requires forall i :: 0 <= i < |customData| ==> customData[i].1 == Placeholder(customData[i].0)
    ensures ApplyAll(content, customData) == content
  {
    if customData != [] {
      var (key, value) := customData[|customData| - 1];
      ApplyAllSelf(content, customData[..|customData| - 1]);
      Text.ReplaceAllIdentity(content, Placeholder(key));
    }
  }

  /** A template that is a single placeholder becomes the value. */
  lemma OnePlaceholder(key: string, value: string)
    ensures ApplyAll(Placeholder(key), [(key, value)]) == value
  {
    var p := Placeholder(key);
    assert [(key, value)][..0] == [];
    assert ApplyAll(p, []) == p;
    assert p[..|p|] == p && p[|p|..] == "";
    assert Text.ReplaceAll("", p, value) == "";
  }

  /** Only the first character of a placeholder for a key without `[` is a
      `[`, so two such placeholders cannot overlap. */
  lemma PlaceholderOpensOnce(key: string, j: int)
    requires forall c :: 0 <= c < |key| ==> key[c] != '['
    requires 0 < j < |Placeholder(key)|
    ensures Placeholder(key)[j] != '['
  {
    if j <= |key| {
      assert Placeholder(key)[j] == key[j - 1];
    }
  }

  /** Text made of placeholder-free parts with the placeholder between them
      comes out with the value between them: every occurrence is replaced,
      and nothing else changes. */
  lemma {:induction false} ReplaceAllJoin(parts: seq<string>, key: string, value: string)
    requires forall c :: 0 <= c < |key| ==> key[c] != '['
    requires forall i :: 0 <= i < |parts| ==> !Text.Contains(parts[i], Placeholder(key))
    ensures Text.ReplaceAll(Text.Join(parts, Placeholder(key)), Placeholder(key), value) == Text.Join(parts, value)
  {
    var p := Placeholder(key);
    if parts == [] {
      assert Text.ReplaceAll("", p, value) == "";
    } else if |parts| == 1 {
      Text.ReplaceAllAbsent(parts[0], p, value);
    } else {
      var a := parts[0];
      var rest := Text.Join(parts[1..], p);
      var s := p + rest;
      assert Text.Join(parts, p) == a + s;
      forall i | 0 <= i < |a|
        ensures !Text.OccursAt(a + s, p, i)
      {
        if i + |p| <= |a| {
          assert (a + s)[i..i + |p|] == a[i..i + |p|];
          assert !Text.OccursAt(a, p, i);
        } else if i + |p| <= |a + s| {
          PlaceholderOpensOnce(key, |a| - i);
          assert (a + s)[i..i + |p|][|a| - i] == '[';
        }
      }
      Text.ReplaceAllSkip(a, s, p, value);
      assert s[..|p|] == p && s[|p|..] == rest;
      ReplaceAllJoin(parts[1..], key, value);
    }
  }

  /** Applying one key to such a text fills every occurrence of its
      placeholder with the value. */
  lemma FillsEveryOccurrence(parts: seq<string>, key: string, value: string)
    requires forall c :: 0 <= c < |key| ==> key[c] != '['
    requires forall i :: 0 <= i < |parts| ==> !Text.Contains(parts[i], Placeholder(key))
    ensures ApplyAll(Text.Join(parts, Placeholder(key)), [(key, value)]) == Text.Join(parts, value)
  {
    assert [(key, value)][..0] == [];
    ReplaceAllJoin(parts, key, value);
  }

  /** The dict `load_templates` builds from the files read, in order: each
      stored under its name, a later file overwriting an earlier one. */
  function LoadedMap(loaded: seq<Template>): map<string, Template>
  {
    if loaded == [] then map[]
    else
      var t := loaded[|loaded| - 1];
      LoadedMap(loaded[..|loaded| - 1])[t.name := t]
  }

  /** The dict's key order: a name joins when it is first stored. */
  function LoadedOrder(loaded: seq<Template>): seq<string>
  {
    if loaded == [] then []
    else
      var t := loaded[|loaded| - 1];
      var init := loaded[..|loaded| - 1];
      if t.name in LoadedMap(init) then LoadedOrder(init) else LoadedOrder(init) + [t.name]
  }

  /** `order` lists the keys of `templates`, each exactly once. */
  predicate IndexedBy(templates: map<string, Template>, order: seq<string>)
  {
    && (forall i :: 0 <= i < |order| ==> order[i] in templates)
    && (forall n :: n in templates ==> n in order)
    && (forall i, j :: 0 <= i < j < |order| ==> order[i] != order[j])
  }

  /** The key order lists every stored name exactly once. */
  lemma {:induction false} LoadedIndexed(loaded: seq<Template>)
    ensures IndexedBy(LoadedMap(loaded), LoadedOrder(loaded))
  {
    if loaded != [] {
      LoadedIndexed(loaded[..|loaded| - 1]);
    }
  }

  /** Every file read is stored under its name. */
  lemma {:induction false} LoadedCovers(loaded: seq<Template>)
    ensures forall k :: 0 <= k < |loaded| ==> loaded[k].name in LoadedMap(loaded)
  {
    if loaded != [] {
      var init := loaded[..|loaded| - 1];
      LoadedCovers(init);
      assert forall k :: 0 <= k < |init| ==> init[k] == loaded[k];
    }
  }

  /** Every stored template is one of the files read, under its own name. */
  lemma {:induction false} LoadedFrom(loaded: seq<Template>)
    ensures forall n :: n in LoadedMap(loaded) ==>
      exists i :: 0 <= i < |loaded| && loaded[i].name == n && LoadedMap(loaded)[n] == loaded[i]
  {
    if loaded != [] {
      var init := loaded[..|loaded| - 1];
      var last := |loaded| - 1;
      LoadedFrom(init);
      forall n | n in LoadedMap(loaded)
        ensures exists i :: 0 <= i < |loaded| && loaded[i].name == n && LoadedMap(loaded)[n] == loaded[i]
      {
        if n == loaded[last].name {
          assert LoadedMap(loaded)[n] == loaded[last];
        } else {
          assert n in LoadedMap(init) && LoadedMap(loaded)[n] == LoadedMap(init)[n];
          var i :| 0 <= i < |init| && init[i].name == n && LoadedMap(init)[n] == init[i];
          assert loaded[i] == init[i];
        }
      }
    }
  }

  /** Of several files with one name, the last one read is the one stored. */
  lemma {:induction false} LoadedLast(loaded: seq<Template>)
    ensures forall i :: 0 <= i < |loaded| && LastWithName(loaded, i, |loaded|) ==>
      loaded[i].name in LoadedMap(loaded) && LoadedMap(loaded)[loaded[i].name] == loaded[i]
  {
    if loaded != [] {
      var init := loaded[..|loaded| - 1];
      var last := |loaded| - 1;
      LoadedLast(init);
      forall i | 0 <= i < |loaded| && LastWithName(loaded, i, |loaded|)
        ensures loaded[i].name in LoadedMap(loaded) && LoadedMap(loaded)[loaded[i].name] == loaded[i]
      {
        if i < last {
          assert LastWithName(init, i, |init|) by {
            forall j | i < j < |init|
              ensures init[j].name != init[i].name
            {
              assert loaded[j].name != loaded[i].name;
            }
          }
          assert loaded[last].name != loaded[i].name;
          assert init[i] == loaded[i];
        }
      }
    }
  }

  /** No file after `loaded[i]` and before `end` has the same name. */
  predicate LastWithName(loaded: seq<Template>, i: int, end: int)
    requires 0 <= i < |loaded| && end <= |loaded|
  {
    forall j :: i < j < end ==> loaded[j].name != loaded[i].name
  }

  class TemplateManager {
    var templates: map<string, Template>
    /** The names in the order they were first stored: the dict's order. */
    var order: seq<string>

    predicate Valid()
      reads this
    {
      IndexedBy(templates, order)
    }

    /** `__init__` with `load_templates`: each template file that was read
        is stored under its name (the file's stem); a later file with the
        same name replaces the earlier one. */
    constructor (loaded: seq<Template>)
      ensures templates == LoadedMap(loaded) && order == LoadedOrder(loaded)
      ensures Valid()
      ensures forall t :: t in loaded ==> t.name in templates
      ensures forall n :: n in templates ==> exists i :: 0 <= i < |loaded| && loaded[i].name == n && templates[n] == loaded[i]
      ensures forall i :: 0 <= i < |loaded| && LastWithName(loaded, i, |loaded|) ==> templates[loaded[i].name] == loaded[i]
    {
      templates := map[];
      order := [];
      new;
      for i := 0 to |loaded|
        invariant templates == LoadedMap(loaded[..i]) && order == LoadedOrder(loaded[..i])
      {
        var t := loaded[i];
        assert loaded[..i + 1][..i] == loaded[..i];
        if t.name !in templates {
          order := order + [t.name];
        }
        templates := templates[t.name := t];
      }
      assert loaded[..|loaded|] == loaded;
      LoadedIndexed(loaded);
      LoadedCovers(loaded);
      LoadedFrom(loaded);
      LoadedLast(loaded);
    }

    /** `get_available_templates`: every stored template, once each. */
    function GetAvailableTemplates(): (ts: seq<Template>)
      requires Valid()
      reads this
      ensures |ts| == |templates|
      ensures forall t :: t in ts <==> t in templates.Values
    {
      var ts := seq(|order|, i requires 0 <= i < |order| && order[i] in templates reads this => templates[order[i]]);
      DistinctNamesCount(order, templates.Keys);
      assert forall t :: t in templates.Values ==> t in ts by {
        forall t | t in templates.Values
          ensures t in ts
        {
          var n :| n in templates && templates[n] == t;
          var i :| 0 <= i < |order| && order[i] == n;
          assert ts[i] == t;
        }
      }
      ts
    }

    /** `get_template`: the template stored under the name, if any. */
    function GetTemplate(templateName: string): (t: Option<Template>)
      reads this
      ensures t.Some? <==> templateName in templates
      ensures t.Some? ==> t.value == templates[templateName]
    {
      if templateName in templates then Some(templates[templateName]) else None
    }

    /** `apply_template`: refused for an unknown name; without custom data
        the content as stored; otherwise every key's placeholder replaced in
        turn. The stored template is not changed. */
    method ApplyTemplate(templateName: string, customData: Option<seq<(string, string)>>)
      returns (r: Result<string, TemplateError>)
      ensures r.Failure? <==> templateName !in templates
      ensures r.Failure? ==> r.error == TemplateNotFound(templateName)
      ensures r.Success? && (customData.None? || customData.value == []) ==>
        r.value == templates[templateName].content
      ensures r.Success? && customData.Some? ==>
        r.value == ApplyAll(templates[templateName].content, customData.value)
    {
      var template := GetTemplate(templateName);
      if template.None? {
        return Failure(TemplateNotFound(templateName));
      }
      var content := template.value.content;
      if customData.Some? && customData.value != [] {
        var data := customData.value;
        for i := 0 to |data|
          invariant content == ApplyAll(template.value.content, data[..i])
        {
          var (key, value) := data[i];
          var placeholder := "[" + key + "]";
          assert data[..i + 1][..i] == data[..i];
          content := Text.ReplaceAll(content, placeholder, value);
        }
        assert data[..|data|] == data;
      }
      return Success(content);
    }
  }

  /** A list of distinct names that covers a set has that set's size. */
  lemma {:induction false} DistinctNamesCount(names: seq<string>, keys: set<string>)
    requires forall i, j :: 0 <= i < j < |names| ==> names[i] != names[j]
    requires forall i :: 0 <= i < |names| ==> names[i] in keys
    requires forall n :: n in keys ==> n in names
    ensures |names| == |keys|
  {
    if names != [] {
      var last := names[|names| - 1];
      var init := names[..|names| - 1];
      assert forall i :: 0 <= i < |init| ==> init[i] != last;
      forall n | n in keys - {last}
        ensures n in init
      {
        var i :| 0 <= i < |names| && names[i] == n;
        assert i != |names| - 1;
        assert init[i] == n;
      }
      DistinctNamesCount(init, keys - {last});
    }
  }
}
