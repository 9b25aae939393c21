/** How the screen's own figures and edits compare with the server's. The
    server's business saving is `businessHoursBack * businessRate`; the
    screen's is `count * businessHoursBack * 150 / 60`. */
module Agreement {
  import opened JsValues
  import opened Records
  import Server
  import Client

  /** Under the default rates both sides give the same hours and IT saving;
      the business savings, and so the totals, agree exactly when the count
      is 60 or no business hours come back. */
  lemma DefaultRatesAgreement(p: Project)
    ensures var s, c := Server.ComputeProjectDerived(p, Server.DefaultSettings), Client.ComputeDerived(p);
      && s.itHours == c.itHours
      && s.itSaving == Real(c.itSaving)
      && (s.businessSaving == Real(c.businessSaving) <==> Coerce(p.count) == 60.0 || Coerce(p.businessHoursBack) == 0.0)
      && (s.total == Real(c.total) <==> Coerce(p.count) == 60.0 || Coerce(p.businessHoursBack) == 0.0)
  {
    var count, bhb := Coerce(p.count), Coerce(p.businessHoursBack);
    var s, c := Server.ComputeProjectDerived(p, Server.DefaultSettings), Client.ComputeDerived(p);
    assert s.businessSaving == Real(bhb * 150.0);
    assert c.businessSaving == count * bhb * 150.0 / 60.0;
    if count * bhb * 150.0 / 60.0 == bhb * 150.0 {
      assert (count - 60.0) * bhb == 0.0;
    }
  }

  /** For the seeded `powerbi` project the two sides already disagree: the
      server shows a business saving of 4500, the screen 15000. */
  lemma SeededBusinessSavingsDiffer()
    ensures Server.ComputeProjectDerived(Server.Seed[0], Server.DefaultSettings).businessSaving == Real(4500.0)
    ensures Client.ComputeDerived(Server.Seed[0]).businessSaving == 15000.0
  {
  }

  /** With unique ids the screen's local edit and the server's patch give the
      same list; both leave a list without the id alone. */
  lemma LocalEditMatchesPatch(ps: seq<Project>, id: string, patch: ProjectPatch)
    requires UniqueIds(ps)
    ensures Client.UpdatedLocally(ps, id, patch) == Server.Patched(ps, id, patch)
  {
    var l, r := Client.UpdatedLocally(ps, id, patch), Server.Patched(ps, id, patch);
    if HasId(ps, id) {
      var k := FindIndex(ps, id);
      forall j | 0 <= j < |ps| ensures l[j] == r[j] {
        if j != k { assert ps[j].id != id; }
      }
    } else {
      Client.UpdateLocalAbsent(ps, id, patch);
    }
  }

  /** With a duplicated id they differ: the screen edits every copy, the
      server the first one only. */
  lemma DuplicateIdsDiverge(p: Project, patch: ProjectPatch)
    requires Merge(p, patch) != p
    ensures Client.UpdatedLocally([p, p], p.id, patch) != Server.Patched([p, p], p.id, patch)
  {
    assert Server.Patched([p, p], p.id, patch)[1] == p;
    assert Client.UpdatedLocally([p, p], p.id, patch)[1] == Merge(p, patch);
  }
}
