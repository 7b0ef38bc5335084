/** Value types shared by the modules that model the MMC/SD driver. */
module MmcTypes {
  /** cam_status; the source's many error codes that the driver thread sets are these two. */
  datatype CamStatus = InProg | Cmp | CmpErr | CmdTimeout

  /** cam_scsi_status */
  datatype ScsiStatus = Good | Check
}
