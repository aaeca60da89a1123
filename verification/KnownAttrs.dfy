/** Names of the attributes every job has. */
module KnownAttrs {
  import opened Text

  const ATTR_OWNER: Bytes := Ascii("http://egee.cesnet.cz/en/Schema/JP/System:owner")
  const ATTR_JOBID: Bytes := Ascii("http://egee.cesnet.cz/en/Schema/JP/System:jobId")
  const ATTR_REGTIME: Bytes := Ascii("http://egee.cesnet.cz/en/Schema/JP/System:regtime")
}
