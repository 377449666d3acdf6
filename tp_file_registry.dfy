/**
 * The per-channel registry of EmpathyTpFile objects
 * (libempathy/empathy-tp-file.c, `ft_table`, `empathy_tp_file_new` and
 * `tp_file_weak_notify_cb`): at most one object per channel, found again
 * by channel identity, and forgotten when the object is finalized.
 *
 * GObject reference counting is modelled only for the registered objects:
 * `refs` holds the count of each one, `New` takes a reference and
 * `Unref` drops one, finalizing the object when the count reaches zero.
 */
module TpFileRegistry {
  import opened TpFileState

  class Registry {
    /** Whether `ft_table` has been created (it is made on first use). */
    var created: bool
    /** `ft_table`: channel to object; keys compare as channel proxies, by bus name and path. */
    var table: map<ChannelKey, TpFile>
    /** The reference count of each registered object. */
    var refs: map<ChannelKey, nat>

    ghost predicate Valid()
      reads this
    {
      && refs.Keys == table.Keys
      && (forall ch :: ch in refs ==> refs[ch] >= 1)
      && (forall ch :: ch in table ==> table[ch].channel == ch)
      && (!created ==> table == map[])
    }

    constructor ()
      ensures Valid() && !created && table == map[] && refs == map[]
    {
      created, table, refs := false, map[], map[];
    }

    /**
     * empathy_tp_file_new: a new reference to the object already
     * registered for `channel`, or else a fresh object for it, registered
     * with one reference.
     */
    method New(channel: ChannelKey) returns (f: TpFile)
      requires Valid()
      modifies this
      ensures Valid() && created && f.channel == channel
      ensures channel in old(table) ==>
        f == old(table)[channel] && table == old(table) && refs == old(refs)[channel := old(refs)[channel] + 1]
      ensures channel !in old(table) ==>
        && fresh(f) && f.Valid() && f.Fields() == Initial()
        && table == old(table)[channel := f] && refs == old(refs)[channel := 1]
    {
      if created && channel in table {
        f := table[channel];
        refs := refs[channel := refs[channel] + 1];
        return;
      }
      created := true;
      f := new TpFile(channel);
      table := table[channel := f];
      refs := refs[channel := 1];
    }

    /** tp_file_weak_notify_cb: the object registered for `channel` is finalized. */
    method Finalized(channel: ChannelKey)
      requires Valid()
      modifies this
      ensures Valid() && created == old(created)
      ensures table == old(table) - {channel} && refs == old(refs) - {channel}
    {
      table := table - {channel};
      refs := refs - {channel};
    }

    /**
     * g_object_unref on the object registered for `channel`: the last
     * reference finalizes it, and it leaves the table.
     */
    method Unref(channel: ChannelKey)
      requires Valid() && channel in table
      modifies this
      ensures Valid() && created == old(created)
      ensures old(refs)[channel] == 1 ==> table == old(table) - {channel} && refs == old(refs) - {channel}
      ensures old(refs)[channel] > 1 ==>
        table == old(table) && refs == old(refs)[channel := old(refs)[channel] - 1]
    {
      if refs[channel] == 1 {
        Finalized(channel);
      } else {
        refs := refs[channel := refs[channel] - 1];
      }
    }
  }
}
