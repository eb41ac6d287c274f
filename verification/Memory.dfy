/** The notes as objects: one shared store, and a backend for each reader. */
module Memory {
  import opened MemoryVersions

  class Service {
    var settings: map<string, Settings>
    var docs: map<(string, string), Doc>

    ghost function State(): Store
      reads this
    {
      Store(settings, docs)
    }

    constructor ()
      ensures State() == Store(map[], map[])
    {
      settings, docs := map[], map[];
    }

    method MemorySettings(scope: string) returns (v: Settings)
      ensures v == SettingsOf(State(), scope)
    {
      if scope in settings {
        return settings[scope];
      }
      return Settings(false, 0);
    }

    method SetMemoryEnabled(enabled: bool)
      modifies this`settings
      ensures State() == Toggled(old(State()), enabled)
    {
      var v := MemorySettings(GLOBAL);
      v := v.(disabled := !enabled);
      v := v.(generation := (v.generation + 1) % WRAP);
      settings := settings[GLOBAL := v];
    }

    method DeleteMemory(scope: string, key: string)
      modifies this
      ensures State() == Deleted(old(State()), scope, key)
    {
      var v := MemorySettings(scope);
      v := v.(generation := (v.generation + 1) % WRAP);
      settings := settings[scope := v];
      docs := docs - {(scope, key)};
    }
  }

  class MemoryBackend {
    const s: Service
    const scope: string
    const generation: nat
    const globalGeneration: nat
    var revisions: map<string, Doc>

    ghost function View(): Backend
      reads this
    {
      Backend(scope, generation, globalGeneration, revisions)
    }

    constructor (s: Service, scope: string)
      ensures this.s == s && View() == Opened(s.State(), scope)
    {
      this.s := s;
      this.scope := scope;
      generation := if scope in s.settings then s.settings[scope].generation else 0;
      globalGeneration := if GLOBAL in s.settings then s.settings[GLOBAL].generation else 0;
      revisions := map[];
    }

    method Valid() returns (ok: bool)
      ensures ok <==> Usable(s.State(), View())
    {
      var g := s.MemorySettings(GLOBAL);
      var v := s.MemorySettings(scope);
      if g.disabled || g.generation != globalGeneration || v.generation != generation {
        return false;
      }
      return true;
    }

    method Read(key: string) returns (ok: bool, doc: Doc)
      modifies this`revisions
      ensures ok <==> MayRead(s.State(), old(View()), key)
      ensures ok ==> doc == s.docs[(scope, key)] && View() == Holding(old(View()), key, doc)
      ensures !ok ==> View() == old(View())
    {
      doc := Doc("", "", 0);
      ok := Valid();
      if !ok || (scope, key) !in s.docs {
        ok := false;
        return;
      }
      doc := s.docs[(scope, key)];
      revisions := revisions[key := doc];
    }

    method WriteChecked(key: string, content: string, secret: bool, now: int) returns (ok: bool)
      modifies this`revisions, s`docs
      ensures ok <==> MayStore(old(s.State()), old(View()), content, secret)
      ensures s.State() == if ok then Put(old(s.State()), old(View()), key, content, now) else old(s.State())
      ensures View() == if ok then Holding(old(View()), key, Doc(key, content, now)) else old(View())
    {
      ok := Valid();
      if !ok || Size(content) > LONGEST || secret {
        return false;
      }
      var doc := Doc(key, content, now);
      s.docs := s.docs[(scope, key) := doc];
      revisions := revisions[key := doc];
    }

    method Write(key: string, content: string, secret: bool, now: int) returns (ok: bool)
      modifies this`revisions, s`docs
      ensures ok <==> MayWrite(old(s.State()), old(View()), key, content, secret)
      ensures s.State() == if ok then Put(old(s.State()), old(View()), key, content, now) else old(s.State())
      ensures View() == if ok then Holding(old(View()), key, Doc(key, content, now)) else old(View())
    {
      if (scope, key) in s.docs {
        var existing := s.docs[(scope, key)];
        if key !in revisions || revisions[key] != existing {
          return false;
        }
      }
      ok := WriteChecked(key, content, secret, now);
    }

    method Edit(key: string, part: string, other: string, all: bool, secret: bool, now: int) returns (ok: bool)
      modifies this`revisions, s`docs
      ensures ok <==> MayEdit(old(s.State()), old(View()), key, part, other, all, secret)
      ensures !ok ==> s.State() == old(s.State()) && View() == old(View())
      ensures ok ==>
                var content := Replace(old(s.docs)[(scope, key)].content, part, other, if all then -1 else 1);
                && s.State() == Put(old(s.State()), old(View()), key, content, now)
                && View() == Holding(old(View()), key, Doc(key, content, now))
    {
      ok := Valid();
      if !ok || (scope, key) !in s.docs {
        return false;
      }
      var doc := s.docs[(scope, key)];
      if part == "" {
        return false;
      }
      var count := Count(doc.content, part);
      if count == 0 || (!all && count != 1) {
        return false;
      }
      var n := 1;
      if all {
        n := -1;
      }
      ok := WriteChecked(key, Replace(doc.content, part, other, n), secret, now);
    }
  }
}
