/** The parts of the ProFTPD host that the lint core reads: the configuration
    tree (`config_rec`, `xaset_t`), modules, memory pools and `errno`. */
module Host {
  import opened Wrappers

  /** The `errno` values the core sets or passes on. `EIO` stands for whatever
      error the file-system layer reported for a failed write. */
  datatype Errno = EINVAL | ENOENT | EIO

  /** A memory pool handle; only whether one was passed matters here. */
  datatype Pool = Pool

  /** `config_rec.config_type`. The named kinds are the host's `CONF_*`
      constants; `ConfUnknown` holds any other value (a zeroed record has 0). */
  datatype ConfigType =
    | ConfRoot | ConfDir | ConfAnon | ConfLimit | ConfParam
    | ConfVirtual | ConfGlobal | ConfClass | ConfUnknown(code: int)

  /** A loaded module; the lint core looks only at its name. */
  datatype Module = Module(name: string)

  /** One node of the configuration tree: a possibly NULL name, its kind and an
      optional nested set of records (`subset`). */
  datatype ConfigRec = ConfigRec(name: Option<string>, configType: ConfigType, subset: Option<ConfigSet>)

  /** An `xaset_t` of configuration records, in list order; an empty list is
      a set whose `xas_list` is NULL. */
  datatype ConfigSet = ConfigSet(list: seq<ConfigRec>)

  /** Whether a name starts with `_`, marking a host-private record. */
  predicate IsPrivateName(name: Option<string>) {
    name.Some? && |name.value| > 0 && name.value[0] == '_'
  }

  /** Every `CONF_PARAM` record below (and including) `c` has a name: the
      lint walk compares those names with `strcmp`, which cannot take NULL. */
  predicate RecNamed(c: ConfigRec)
    decreases c
  {
    && (c.configType == ConfParam ==> c.name.Some?)
    && (c.subset.Some? ==> SetNamed(c.subset.value))
  }

  /** `RecNamed` for every record of a set. */
  predicate SetNamed(s: ConfigSet)
    decreases s
  {
    forall i :: 0 <= i < |s.list| ==> RecNamed(s.list[i])
  }

  /** A `server_rec`: the main server or a `<VirtualHost>`, with the fields
      the lint core reads. */
  datatype Server = Server(
    address: string,
    port: nat,
    admin: Option<string>,
    serverName: Option<string>,
    conf: Option<ConfigSet>)

  /** `RecNamed` for a server's whole configuration. */
  predicate ServerNamed(s: Server) {
    s.conf.Some? ==> SetNamed(s.conf.value)
  }
}
