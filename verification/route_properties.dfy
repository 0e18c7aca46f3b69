/** Properties of the handlers that relate several requests or the store
    before and after one: uniqueness invariants, repeated requests, and the
    email rule of the client update. */
module RouteProperties {
  import opened Wrappers
  import opened Seqs
  import opened Schema
  import opened Storage
  import opened Routes

  /** With unique emails, an update naming a non-empty email is refused
      exactly when a different client holds it; re-submitting the client's
      own email is accepted. */
  lemma UpdateEmailRefusedIffHeldByOther(st: Store, id: Id, body: ClientBody, isEmail: string -> bool)
    requires UniqueEmails(st)
    requires PatchBodyValid(body, isEmail) && body.email.JsonString? && body.email.s != ""
    ensures UpdateClientRoute(st, id, body, isEmail).outcome == EmailInUse <==>
              exists j :: 0 <= j < |st.clients| && st.clients[j].email == body.email.s && st.clients[j].id != id
  {
    var e := body.email.s;
    var holder := GetClientByEmail(st, e);
    if exists j :: 0 <= j < |st.clients| && st.clients[j].email == e && st.clients[j].id != id {
      var j :| 0 <= j < |st.clients| && st.clients[j].email == e && st.clients[j].id != id;
      var k :| 0 <= k < |st.clients| && st.clients[k] == holder.value && holder.value.email == e
               && forall m :: 0 <= m < k ==> st.clients[m].email != e;
      assert k == j;
    }
  }

  /** Re-submitting a client's own email never trips the email check. */
  lemma UpdateWithOwnEmailAccepted(st: Store, i: nat, body: ClientBody, isEmail: string -> bool)
    requires UniqueEmails(st) && Valid(st)
    requires i < |st.clients|
    requires PatchBodyValid(body, isEmail) && body.email == JsonString(st.clients[i].email)
    ensures UpdateClientRoute(st, st.clients[i].id, body, isEmail).outcome == Success
  {
    var c := st.clients[i];
    if c.email != "" {
      UpdateEmailRefusedIffHeldByOther(st, c.id, body, isEmail);
    }
    assert HasId(st.clients, ClientKey, c.id);
  }

  /** Creating a client keeps emails unique: the handler refuses an email already held. */
  lemma CreateClientKeepsEmailsUnique(st: Store, body: ClientBody, isEmail: string -> bool, freshId: Id)
    requires !HasId(st.clients, ClientKey, freshId)
    requires UniqueEmails(st)
    ensures UniqueEmails(CreateClientRoute(st, body, isEmail, freshId).store)
  {
    var r := CreateClientRoute(st, body, isEmail, freshId);
    if r.outcome == Created {
      var cs := r.store.clients;
      forall i, j | 0 <= i < j < |cs| ensures cs[i].email != cs[j].email {
        if j == |cs| - 1 {
          assert cs[i] == st.clients[i];
        } else {
          assert cs[i] == st.clients[i] && cs[j] == st.clients[j];
        }
      }
    }
  }

  /** Replacing one client by a record whose email no other client holds
      keeps emails unique. */
  lemma ReplaceKeepsEmailsUnique(st: Store, i: nat, c: Client)
    requires i < |st.clients| && UniqueEmails(st)
    requires forall j :: 0 <= j < |st.clients| && j != i ==> st.clients[j].email != c.email
    ensures UniqueEmails(st.(clients := st.clients[i := c]))
  {
    var after := st.clients[i := c];
    forall j, k | 0 <= j < k < |after| ensures after[j].email != after[k].email {
      if j != i && k != i {
        assert after[j] == st.clients[j] && after[k] == st.clients[k];
      }
    }
  }

  /** Removing one client keeps emails unique. */
  lemma RemoveKeepsEmailsUnique(st: Store, i: nat)
    requires i < |st.clients| && UniqueEmails(st)
    ensures UniqueEmails(st.(clients := st.clients[..i] + st.clients[i + 1..]))
  {
    var after := st.clients[..i] + st.clients[i + 1..];
    assert after == RemoveAt(st.clients, i);
    forall j, k | 0 <= j < k < |after| ensures after[j].email != after[k].email {
      if k < i {
        assert after[j] == st.clients[j] && after[k] == st.clients[k];
      } else if j < i {
        assert after[j] == st.clients[j] && after[k] == st.clients[k + 1];
      } else {
        assert after[j] == st.clients[j + 1] && after[k] == st.clients[k + 1];
      }
    }
  }

  /** Updating a client keeps emails unique, given that the email format
      rejects the empty string (so every supplied email goes through the check). */
  lemma UpdateClientKeepsEmailsUnique(st: Store, id: Id, body: ClientBody, isEmail: string -> bool)
    requires Valid(st) && UniqueEmails(st)
    requires !isEmail("")
    ensures UniqueEmails(UpdateClientRoute(st, id, body, isEmail).store)
  {
    var r := UpdateClientRoute(st, id, body, isEmail);
    if r.outcome == Success {
      var patch := ParseClientPatch(body, isEmail).value;
      var i :| 0 <= i < |st.clients| && st.clients[i].id == id
               && r.store == st.(clients := st.clients[i := MergeClient(st.clients[i], patch)]);
      var c := MergeClient(st.clients[i], patch);
      forall j | 0 <= j < |st.clients| && j != i ensures st.clients[j].email != c.email {
        if patch.email.Some? {
          assert patch.email.value != "";
          UpdateEmailRefusedIffHeldByOther(st, id, body, isEmail);
          assert st.clients[j].id != id;
        } else {
          assert c.email == st.clients[i].email;
        }
      }
      ReplaceKeepsEmailsUnique(st, i, c);
    }
  }

  /** Deleting a client keeps emails unique. */
  lemma DeleteClientKeepsEmailsUnique(st: Store, id: Id)
    requires UniqueEmails(st)
    ensures UniqueEmails(DeleteClientRoute(st, id).store)
  {
    var r := DeleteClientRoute(st, id);
    if r.outcome == Success {
      var i :| 0 <= i < |st.clients| && st.clients[i].id == id
               && r.store == st.(clients := st.clients[..i] + st.clients[i + 1..]);
      RemoveKeepsEmailsUnique(st, i);
    }
  }

  /** A second client with an email already registered is refused and the
      store keeps only the first. */
  lemma SecondClientWithSameEmailRefused(st: Store, b1: ClientBody, b2: ClientBody, isEmail: string -> bool,
                                         id1: Id, id2: Id)
    requires !HasId(st.clients, ClientKey, id1)
    requires ClientBodyValid(b1, isEmail) && ClientBodyValid(b2, isEmail) && b2.email == b1.email
    ensures CreateClientRoute(st, b1, isEmail, id1).outcome == Created ==>
              var st1 := CreateClientRoute(st, b1, isEmail, id1).store;
              !HasId(st1.clients, ClientKey, id2) ==>
                CreateClientRoute(st1, b2, isEmail, id2) == Reply(EmailInUse, st1)
  {
    var r1 := CreateClientRoute(st, b1, isEmail, id1);
    if r1.outcome == Created {
      assert r1.store.clients[|st.clients|].email == b2.email.s;
    }
  }

  /** Deleting the same client twice: found the first time, not found the second. */
  lemma DeleteClientTwice(st: Store, id: Id)
    requires Valid(st) && HasId(st.clients, ClientKey, id)
    ensures DeleteClientRoute(st, id).outcome == Success
    ensures DeleteClientRoute(DeleteClientRoute(st, id).store, id) == Reply(ClientNotFound, DeleteClientRoute(st, id).store)
  {
  }

  /** Deleting the same appointment twice: found the first time, not found the second. */
  lemma DeleteAppointmentTwice(st: Store, id: Id)
    requires Valid(st) && HasId(st.appointments, AppointmentKey, id)
    ensures DeleteAppointmentRoute(st, id).outcome == Success
    ensures DeleteAppointmentRoute(DeleteAppointmentRoute(st, id).store, id)
              == Reply(AppointmentNotFound, DeleteAppointmentRoute(st, id).store)
  {
  }

  /** Cancelled appointments never block a slot: when every appointment at
      the slot is cancelled, a creation that passes the reference checks is accepted. */
  lemma CancelledNeverBlocks(st: Store, n: NewAppointment, freshId: Id)
    requires !HasId(st.appointments, AppointmentKey, freshId)
    requires HasId(st.clients, ClientKey, n.clientId)
    requires GetService(st, n.serviceId).Some? && GetService(st, n.serviceId).value.active == "true"
    requires forall i :: 0 <= i < |st.appointments| ==>
                 (st.appointments[i].date == n.date && st.appointments[i].time == n.time ==>
                    st.appointments[i].status == Cancelled)
    ensures CreateAppointmentRoute(st, Some(n), freshId).outcome == Created
  {
  }

  /** An update that does not supply both a date and a time is never
      refused for a conflict, whatever the store holds. */
  lemma PartialRescheduleSkipsConflictCheck(st: Store, id: Id, p: AppointmentPatch)
    requires p.date.None? || p.time.None?
    ensures UpdateAppointmentRoute(st, id, Some(p)).outcome != SlotTaken
    ensures HasId(st.appointments, AppointmentKey, id) ==> UpdateAppointmentRoute(st, id, Some(p)).outcome == Success
  {
  }

  /** In a store without double bookings, the slot of a live appointment is
      held by no other appointment. */
  lemma LiveSlotHeldOnlyBySelf(st: Store, i: nat)
    requires NoDoubleBooking(st) && Valid(st)
    requires i < |st.appointments| && st.appointments[i].status != Cancelled
    ensures !SlotHeld(st, st.appointments[i].date, st.appointments[i].time, Some(st.appointments[i].id))
  {
    var a := st.appointments[i];
    var apps := st.appointments;
    forall j | 0 <= j < |apps| && apps[j].id != a.id ensures !Occupies(apps[j], a.date, a.time) {
      assert j != i;
      if j < i && apps[j].status != Cancelled {
        assert !Occupies(apps[i], apps[j].date, apps[j].time);
      }
    }
  }

  /** Re-submitting the date and time of a live appointment is accepted:
      the conflict scan leaves the appointment itself out. */
  lemma RescheduleExcludesItself(st: Store, i: nat, p: AppointmentPatch)
    requires NoDoubleBooking(st) && Valid(st)
    requires i < |st.appointments| && st.appointments[i].status != Cancelled
    requires p.date == Some(st.appointments[i].date) && p.time == Some(st.appointments[i].time)
    ensures UpdateAppointmentRoute(st, st.appointments[i].id, Some(p)).outcome == Success
  {
    assert HasId(st.appointments, AppointmentKey, st.appointments[i].id);
    LiveSlotHeldOnlyBySelf(st, i);
  }

  /** The corrected update keeps the store free of double bookings. */
  lemma CheckedUpdateKeepsNoDoubleBooking(st: Store, id: Id, body: Option<AppointmentPatch>)
    requires Valid(st) && NoDoubleBooking(st)
    ensures NoDoubleBooking(UpdateAppointmentChecked(st, id, body).store)
  {
    var r := UpdateAppointmentChecked(st, id, body);
    if r.outcome == Success {
      var i :| 0 <= i < |st.appointments| && st.appointments[i].id == id
               && var m := MergeAppointment(st.appointments[i], body.value);
                  && !(m.status != Cancelled && SlotHeld(st, m.date, m.time, Some(id)))
                  && r.store == st.(appointments := st.appointments[i := m]);
      var m := MergeAppointment(st.appointments[i], body.value);
      var apps := r.store.appointments;
      forall j, k | 0 <= j < k < |apps| && apps[j].status != Cancelled
        ensures !Occupies(apps[k], apps[j].date, apps[j].time)
      {
        if j == i {
          assert st.appointments[k].id != id;
          assert apps[k] == st.appointments[k];
        } else if k == i {
          assert st.appointments[j].id != id;
          assert apps[j] == st.appointments[j];
        } else {
          assert apps[j] == st.appointments[j] && apps[k] == st.appointments[k];
        }
      }
    }
  }

  /** The corrected update only adds refusals to the handler as written:
      every request the handler refuses gets the same reply, and every
      request the corrected update accepts the handler accepts alike. */
  lemma CheckedOnlyAddsRefusals(st: Store, id: Id, body: Option<AppointmentPatch>)
    requires Valid(st)
    ensures var w := UpdateAppointmentRoute(st, id, body);
            w.outcome != Success ==> UpdateAppointmentChecked(st, id, body) == w
    ensures var c := UpdateAppointmentChecked(st, id, body);
            c.outcome == Success ==> UpdateAppointmentRoute(st, id, body) == c
  {
    var w, c := UpdateAppointmentRoute(st, id, body), UpdateAppointmentChecked(st, id, body);
    if c.outcome == Success {
      assert w.outcome == Success;
      var i :| 0 <= i < |st.appointments| && st.appointments[i].id == id
               && w.store == st.(appointments := st.appointments[i := MergeAppointment(st.appointments[i], body.value)]);
      var k :| 0 <= k < |st.appointments| && st.appointments[k].id == id
               && c.store == st.(appointments := st.appointments[k := MergeAppointment(st.appointments[k], body.value)]);
      assert i == k;
    }
  }

  /** Deleting an appointment keeps the store free of double bookings. */
  lemma DeleteAppointmentKeepsNoDoubleBooking(st: Store, id: Id)
    requires NoDoubleBooking(st)
    ensures NoDoubleBooking(DeleteAppointmentRoute(st, id).store)
  {
    var r := DeleteAppointmentRoute(st, id);
    if r.outcome == Success {
      var i :| 0 <= i < |st.appointments| && st.appointments[i].id == id
               && r.store == st.(appointments := st.appointments[..i] + st.appointments[i + 1..]);
      var apps := r.store.appointments;
      assert apps == RemoveAt(st.appointments, i);
      forall j, k | 0 <= j < k < |apps| && apps[j].status != Cancelled
        ensures !Occupies(apps[k], apps[j].date, apps[j].time)
      {
        if k < i {
          assert apps[j] == st.appointments[j] && apps[k] == st.appointments[k];
        } else if j < i {
          assert apps[j] == st.appointments[j] && apps[k] == st.appointments[k + 1];
        } else {
          assert apps[j] == st.appointments[j + 1] && apps[k] == st.appointments[k + 1];
        }
      }
    }
  }

  /** As written, an update that does not reschedule (no date and time
      pair) is stored as merged for any stored id, with no conflict scan. */
  lemma UnscannedUpdateAccepted(st: Store, k: nat, p: AppointmentPatch)
    requires Valid(st)
    requires k < |st.appointments| && !Reschedules(p)
    ensures var r := UpdateAppointmentRoute(st, st.appointments[k].id, Some(p));
            && r.outcome == Success
            && r.store == st.(appointments := st.appointments[k := MergeAppointment(st.appointments[k], p)])
  {
    var id := st.appointments[k].id;
    assert HasId(st.appointments, AppointmentKey, id);
    var r := UpdateAppointmentRoute(st, id, Some(p));
    var i :| 0 <= i < |st.appointments| && st.appointments[i].id == id
             && r.store == st.(appointments := st.appointments[i := MergeAppointment(st.appointments[i], p)]);
    assert i == k;
  }

  /** Placing a live appointment at `k` onto the slot of another live
      appointment at `j` leaves a double booking. */
  lemma ClashBreaksNoDoubleBooking(apps: seq<Appointment>, j: nat, k: nat, m: Appointment)
    requires j < |apps| && k < |apps| && j != k
    requires apps[j].status != Cancelled && Occupies(m, apps[j].date, apps[j].time)
    ensures !NoDoubleBooking(Store([], [], [], apps[k := m]))
  {
    var after := apps[k := m];
    assert after[j] == apps[j] && after[k] == m;
    if j < k {
      assert after[j].status != Cancelled && Occupies(after[k], after[j].date, after[j].time);
    } else {
      assert after[k].status != Cancelled && Occupies(after[j], after[k].date, after[k].time);
    }
  }

  /** The corrected update refuses any update whose merged record is live on
      a slot that another live appointment holds. */
  lemma CheckedRefusesClash(st: Store, j: nat, k: nat, p: AppointmentPatch)
    requires Valid(st)
    requires j < |st.appointments| && k < |st.appointments| && j != k
    requires st.appointments[j].status != Cancelled
    requires Occupies(MergeAppointment(st.appointments[k], p), st.appointments[j].date, st.appointments[j].time)
    ensures UpdateAppointmentChecked(st, st.appointments[k].id, Some(p)).outcome == SlotTaken
  {
    var a, b := st.appointments[j], st.appointments[k];
    assert HasId(st.appointments, AppointmentKey, b.id);
    assert a.id != b.id;
    assert Occupies(st.appointments[j], a.date, a.time);
    assert SlotHeld(st, a.date, a.time, Some(b.id));
    assert forall i :: 0 <= i < |st.appointments| && st.appointments[i].id == b.id ==> i == k;
  }

  /** The handler as written lets an update that supplies only a time move a
      live appointment onto a slot another live appointment holds on the same
      date, turning a store without double bookings into one with a double
      booking; the corrected handler refuses it. */
  lemma TimeOnlyUpdateCanDoubleBook(st: Store, j: nat, k: nat)
    requires Valid(st) && NoDoubleBooking(st)
    requires j < |st.appointments| && k < |st.appointments| && j != k
    requires st.appointments[j].status != Cancelled && st.appointments[k].status != Cancelled
    requires st.appointments[k].date == st.appointments[j].date
    ensures var p := AppointmentPatch(None, None, None, Some(st.appointments[j].time), None);
            var r := UpdateAppointmentRoute(st, st.appointments[k].id, Some(p));
            r.outcome == Success && !NoDoubleBooking(r.store)
    ensures var p := AppointmentPatch(None, None, None, Some(st.appointments[j].time), None);
            UpdateAppointmentChecked(st, st.appointments[k].id, Some(p)).outcome == SlotTaken
  {
    var p := AppointmentPatch(None, None, None, Some(st.appointments[j].time), None);
    var m := MergeAppointment(st.appointments[k], p);
    UnscannedUpdateAccepted(st, k, p);
    ClashBreaksNoDoubleBooking(st.appointments, j, k, m);
    CheckedRefusesClash(st, j, k, p);
  }

  /** The same gap through the status: as written, an update that supplies
      only a live status revives a cancelled appointment on a slot another
      live appointment holds, turning a store without double bookings into
      one with a double booking; the corrected handler refuses it. */
  lemma RevivalCanDoubleBook(st: Store, j: nat, k: nat, status: string)
    requires Valid(st) && NoDoubleBooking(st)
    requires j < |st.appointments| && k < |st.appointments| && j != k
    requires st.appointments[j].status != Cancelled && status != Cancelled
    requires st.appointments[k].date == st.appointments[j].date && st.appointments[k].time == st.appointments[j].time
    ensures var p := AppointmentPatch(None, None, None, None, Some(status));
            var r := UpdateAppointmentRoute(st, st.appointments[k].id, Some(p));
            r.outcome == Success && !NoDoubleBooking(r.store)
    ensures var p := AppointmentPatch(None, None, None, None, Some(status));
            UpdateAppointmentChecked(st, st.appointments[k].id, Some(p)).outcome == SlotTaken
  {
    var p := AppointmentPatch(None, None, None, None, Some(status));
    var m := MergeAppointment(st.appointments[k], p);
    UnscannedUpdateAccepted(st, k, p);
    ClashBreaksNoDoubleBooking(st.appointments, j, k, m);
    CheckedRefusesClash(st, j, k, p);
  }

  /** A concrete store for the finding above: two live appointments on
      2024-01-15 at 09:00 and 10:00; moving the second to 09:00 by supplying
      only the time is accepted and leaves both at 09:00. */
  lemma TimeOnlyUpdateDoubleBooks()
    ensures var st := Store([], [], [], [Appointment("a1", "c1", "s1", "2024-01-15", "09:00", "pendente"),
                                         Appointment("a2", "c1", "s1", "2024-01-15", "10:00", "pendente")]);
            var p := AppointmentPatch(None, None, None, Some("09:00"), None);
            && NoDoubleBooking(st)
            && UpdateAppointmentRoute(st, "a2", Some(p)).outcome == Success
            && !NoDoubleBooking(UpdateAppointmentRoute(st, "a2", Some(p)).store)
            && UpdateAppointmentChecked(st, "a2", Some(p)).outcome == SlotTaken
  {
    var a1 := Appointment("a1", "c1", "s1", "2024-01-15", "09:00", "pendente");
    var a2 := Appointment("a2", "c1", "s1", "2024-01-15", "10:00", "pendente");
    var st := Store([], [], [], [a1, a2]);
    assert "a1" != "a2" by { assert "a1"[1] != "a2"[1]; }
    assert "09:00" != "10:00" by { assert "09:00"[0] != "10:00"[0]; }
    assert "pendente" != Cancelled by { assert "pendente"[0] != Cancelled[0]; }
    assert Valid(st);
    assert NoDoubleBooking(st);
    TimeOnlyUpdateCanDoubleBook(st, 0, 1);
    assert st.appointments[0].time == "09:00" && st.appointments[1].id == "a2";
  }
}
