/**
 * The slot-locking invariant of booking: every appointment that is still
 * `Pendente` or `Agendado` names an existing slot whose lock is set, and
 * no two such appointments share a slot.
 *
 * Booking, cancelling, ruling, deleting an appointment and creating a slot
 * keep it. The administrator's appointment update, the slot update (which
 * any doctor may call) and the slot delete do not; the lemmas at the end
 * exhibit how. The converse does not hold either: a refused booking keeps
 * its slot locked with nothing active in it.
 */
module Booking {
  import opened Wrappers
  import opened Entities
  import AC = AppointmentController
  import SC = ScheduleController
  import Text

  /** An appointment that still holds its slot: exactly the ones that may be cancelled. */
  predicate Active(a: Agendamento) {
    AC.Cancellable(a)
  }

  /** Every active appointment points at an existing, locked slot. */
  predicate ActiveSlotsLocked(st: Store) {
    forall k | k in st.agendamentos && Active(st.agendamentos[k]) ::
      st.agendamentos[k].idAgenda in st.agendas && st.agendas[st.agendamentos[k].idAgenda].isBloqueado
  }

  /** No two active appointments share a slot. */
  predicate NoDoubleBooking(st: Store) {
    forall k1, k2 | k1 in st.agendamentos && k2 in st.agendamentos && k1 != k2
      && Active(st.agendamentos[k1]) && Active(st.agendamentos[k2]) ::
      st.agendamentos[k1].idAgenda != st.agendamentos[k2].idAgenda
  }

  predicate SlotLocking(st: Store) {
    ActiveSlotsLocked(st) && NoDoubleBooking(st)
  }

  /** Setting a slot's lock keeps the invariant, unless it clears the lock of a slot in use. */
  lemma LockKeeps(st: Store, slot: int, locked: bool, now: Time)
    requires SlotLocking(st) && slot in st.agendas
    requires !locked ==> forall k | k in st.agendamentos && Active(st.agendamentos[k]) :: st.agendamentos[k].idAgenda != slot
    ensures SlotLocking(AC.WithLock(st, slot, locked, now))
  {
  }

  /** Booking keeps the invariant: it only books a slot that was free, and locks it. */
  lemma CreateKeeps(st: Store, input: AC.AppointmentModel, env: Env)
    requires SlotLocking(st)
    ensures SlotLocking(AC.CreateAppointment(st, input, env).store)
  {
    var r := AC.CreateAppointment(st, input, env);
    if input.idAgenda in st.agendas && !st.agendas[input.idAgenda].isBloqueado && env.Fault(0).None? {
      var locked := AC.WithLock(st, input.idAgenda, true, env.now);
      LockKeeps(st, input.idAgenda, true, env.now);
      if env.Fault(1).None? {
        var id :| id !in st.agendamentos && r.store ==
          locked.(agendamentos := st.agendamentos[id := AC.Booked(id, input, env.now)]);
        // The slot was free, so no active appointment was in it.
        assert forall k | k in st.agendamentos && Active(st.agendamentos[k]) ::
          st.agendamentos[k].idAgenda != input.idAgenda;
        assert ActiveSlotsLocked(r.store);
      }
    }
  }

  /** Cancelling keeps the invariant: the appointment stops being active before its slot is freed. */
  lemma CancelKeeps(st: Store, caller: Principal, id: int, justificativa: Option<string>, env: Env)
    requires SlotLocking(st)
    ensures SlotLocking(AC.CancelAppointment(st, caller, id, justificativa, env).store)
  {
    var r := AC.CancelAppointment(st, caller, id, justificativa, env);
    if AC.CancelTarget(st, caller, id).Some? && AC.Cancellable(st.agendamentos[id]) && env.Fault(0).None? {
      var before := st.agendamentos[id];
      var cancelled := st.(agendamentos := st.agendamentos[id := before.(
        statusAgendamento := Some(Cancelado),
        motivoCancelamento := if justificativa.Some? then justificativa else before.motivoCancelamento,
        dataModificacao := env.now)]);
      assert SlotLocking(cancelled);
      if before.idAgenda in st.agendas && env.Fault(1).None? {
        // The cancelled appointment was the only active one in its slot.
        assert forall k | k in cancelled.agendamentos && Active(cancelled.agendamentos[k]) ::
          cancelled.agendamentos[k].idAgenda != before.idAgenda;
        LockKeeps(cancelled, before.idAgenda, false, env.now);
      }
    }
  }

  /** Accepting or refusing keeps the invariant: the slot stays, and an active booking keeps its slot. */
  lemma RulingKeeps(st: Store, caller: Principal, id: int, token: Option<string>, env: Env)
    requires SlotLocking(st)
    ensures SlotLocking(AC.UpdateAppointmentStatus(st, caller, id, token, env).store)
  {
  }

  /** Deleting an appointment keeps the invariant (its slot merely stays locked). */
  lemma DeleteKeeps(st: Store, id: int, env: Env)
    requires SlotLocking(st)
    ensures SlotLocking(AC.DeleteAppointment(st, id, env).store)
  {
  }

  /** Creating a slot keeps the invariant: the new slot is unlocked but nobody is in it. */
  lemma SlotCreateKeeps(st: Store, input: SC.ScheduleModel, env: Env)
    requires SlotLocking(st)
    ensures SlotLocking(SC.CreateDoctorsSchedule(st, input, env).store)
  {
    var r := SC.CreateDoctorsSchedule(st, input, env);
    if env.Fault(0).None? {
      var id :| id !in st.agendas && r.store == st.(agendas := st.agendas[id :=
        Agenda(id, false, input.horarioInicio, input.horarioFim, env.now, env.now, input.idMedico)]);
      assert ActiveSlotsLocked(r.store);
    }
  }

  /**
   * The administrator's update can move an active appointment to a free
   * slot without locking it.
   */
  lemma AdminUpdateBreaks(st: Store, id: int, input: AC.AppointmentModel, env: Env)
    requires SlotLocking(st)
    requires id in st.agendamentos && Active(st.agendamentos[id])
    requires input.idAgenda > 0 && input.idAgenda in st.agendas && !st.agendas[input.idAgenda].isBloqueado
    requires env.Fault(0).None?
    ensures !SlotLocking(AC.UpdateAppointment(st, id, input, env).store)
  {
    var after := AC.UpdateAppointment(st, id, input, env).store;
    assert Active(after.agendamentos[id]);
  }

  /** Updating a slot clears its lock, so the active appointment in it loses its lock. */
  lemma SlotUpdateBreaks(st: Store, k: int, input: SC.ScheduleModel, env: Env)
    requires k in st.agendamentos && Active(st.agendamentos[k]) && st.agendamentos[k].idAgenda in st.agendas
    requires env.Fault(0).None?
    ensures !SlotLocking(SC.UpdateDoctorsSchedule(st, st.agendamentos[k].idAgenda, input, env).store)
  {
    var after := SC.UpdateDoctorsSchedule(st, st.agendamentos[k].idAgenda, input, env).store;
    assert after.agendamentos[k] == st.agendamentos[k];
  }

  /**
   * Deleting a slot leaves the active appointment in it pointing nowhere:
   * the controller deletes without looking for bookings, and whatever the
   * database's foreign key then does (reject the write, or cascade) is not
   * part of this model.
   */
  lemma SlotDeleteBreaks(st: Store, k: int, env: Env)
    requires k in st.agendamentos && Active(st.agendamentos[k]) && st.agendamentos[k].idAgenda in st.agendas
    requires env.Fault(0).None?
    ensures !SlotLocking(SC.DeleteDoctorsSchedule(st, st.agendamentos[k].idAgenda, env).store)
  {
    var after := SC.DeleteDoctorsSchedule(st, st.agendamentos[k].idAgenda, env).store;
    assert after.agendamentos[k] == st.agendamentos[k];
  }

  /** One slot (locked) holding one pending booking, and one free slot. */
  function Sample(): Store {
    Store(map[], map[], map[],
          map[1 := Agenda(1, true, 10, 20, 1, 1, 1), 2 := Agenda(2, false, 30, 40, 1, 1, 1)],
          map[1 := Agendamento(1, Some(Pendente), None, 1, 1, 1, 1, 1)])
  }

  /** The three breaking writes, each applied to `Sample()`, which satisfies the invariant. */
  lemma BreakingWritesOnSample()
    ensures SlotLocking(Sample())
    ensures !SlotLocking(AC.UpdateAppointment(Sample(), 1, AC.AppointmentModel(0, 0, 2), Env(5, map[])).store)
    ensures !SlotLocking(SC.UpdateDoctorsSchedule(Sample(), 1, SC.ScheduleModel(0, 0, 0), Env(5, map[])).store)
    ensures !SlotLocking(SC.DeleteDoctorsSchedule(Sample(), 1, Env(5, map[])).store)
  {
    AdminUpdateBreaks(Sample(), 1, AC.AppointmentModel(0, 0, 2), Env(5, map[]));
    SlotUpdateBreaks(Sample(), 1, SC.ScheduleModel(0, 0, 0), Env(5, map[]));
    SlotDeleteBreaks(Sample(), 1, Env(5, map[]));
  }

  /**
   * A locked slot need not hold an active booking: after an administrator
   * refuses the booking in `Sample()`, slot 1 is still locked and nothing
   * active is in it, so the slot cannot be booked until a slot update clears the flag.
   */
  lemma RefusalKeepsSlotLocked()
    ensures var after := AC.UpdateAppointmentStatus(
              Sample(), Principal("admin", 1, "admin@x.y", Administrador), 1, Some("Recusado"), Env(5, map[])).store;
      && SlotLocking(after)
      && 1 in after.agendas && after.agendas[1].isBloqueado
      && forall k | k in after.agendamentos :: !(Active(after.agendamentos[k]) && after.agendamentos[k].idAgenda == 1)
  {
    assert AC.RulingStatus("Recusado") == Some(Recusado) by {
      assert Text.Lower("Recusado") == "recusado";
    }
  }
}
