/** The farm record the scheduler owns (src/dto.rs). */
module Farms {
  import opened Options
  import opened Crops

  datatype FarmSize = FarmSize(width: nat, length: nat)

  /**
   * `Farm`, without its location and owner: those are static configuration
   * the core never reads.
   */
  datatype Farm = Farm(
    crops: seq<Crop>,
    size: FarmSize,
    securityCode: string,
    isActive: bool,
    isTrackable: Option<bool>,
    isPlantReady: Option<bool>,
    isReadyForHarvest: Option<bool>)
}
